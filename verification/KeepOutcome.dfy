/** What a complete run of finalization means, told from the materializer's outcomes, the calls made and the items' fields. */
module KeepOutcome {
  import opened Common
  import opened Grouping
  import opened ScanItems
  import opened GroupLists
  import opened Resolve
  import opened PeerWalk
  import opened Finalize
  import opened RoleAccounting
  import K = KeepRules

  ghost predicate Member(gidOf: seq<nat>, g: nat, x: nat) {
    x < |gidOf| && gidOf[x] == g
  }

  /** A peer that is taken as soon as it is tried. */
  predicate TakenAsIs(outcome: MatOutcome, promote: bool) {
    outcome.Complete? || (outcome.Incomplete? && !promote)
  }

  /** Some member of the group can be taken as it is. */
  ghost predicate CanDeliver(p: Plan, gidOf: seq<nat>, g: nat)
    requires |p.mat| == |gidOf|
  {
    exists x: nat :: Member(gidOf, g, x) && TakenAsIs(p.mat[x], p.promote)
  }

  ghost predicate Loses(gidOf: seq<nat>, winners: seq<Option<nat>>, calls: seq<nat>, mat: seq<MatOutcome>, x: nat, g: nat)
    requires |mat| == |gidOf| && g < |winners|
  {
    Member(gidOf, g, x) && x in calls && winners[g] != Some(x)
  }

  /** Member x against the winner w: w keeps its place by the rules, and x was tried exactly when it came no later. */
  ghost predicate PeerExplained(p: Plan, gidOf: seq<nat>, calls: seq<nat>, g: nat, w: nat, x: nat)
    requires |p.items| == |p.mat| == |gidOf| && w < |gidOf| && x < |gidOf|
  {
    if CanDeliver(p, gidOf, g) then
      && TakenAsIs(p.mat[w], p.promote)
      && (TakenAsIs(p.mat[x], p.promote) ==> K.Keeps(p.items[w], p.items[x], p.ctx))
      && (if x in calls then K.Keeps(p.items[x], p.items[w], p.ctx) else K.Keeps(p.items[w], p.items[x], p.ctx))
    else
      x in calls && (p.mat[x].Incomplete? ==> K.Keeps(p.items[w], p.items[x], p.ctx))
  }

  /** The winner of a group: nobody exactly when every member failed, else the best copy of those that may be delivered. */
  ghost predicate GroupExplained(p: Plan, gidOf: seq<nat>, winners: seq<Option<nat>>, calls: seq<nat>, g: nat)
    requires |p.items| == |p.mat| == |gidOf| && g < |winners|
  {
    match winners[g]
    case None => forall x: nat :: Member(gidOf, g, x) ==> p.mat[x].HardFail? && x in calls
    case Some(w) =>
      && Member(gidOf, g, w) && w in calls && !p.mat[w].HardFail?
      && forall x: nat {:trigger PeerExplained(p, gidOf, calls, g, w, x)} :: Member(gidOf, g, x) ==> PeerExplained(p, gidOf, calls, g, w, x)
  }

  /** The promotion columns of a winner, from what the calls of its group gave. */
  ghost predicate PromotionExplained(p: Plan, gidOf: seq<nat>, winners: seq<Option<nat>>, calls: seq<nat>, row: Row, g: nat)
    requires |p.items| == |p.mat| == |gidOf| && g < |winners|
  {
    var skipped := exists x: nat :: Loses(gidOf, winners, calls, p.mat, x, g) && p.mat[x].Incomplete?;
    var failed := exists x: nat :: Loses(gidOf, winners, calls, p.mat, x, g) && p.mat[x].HardFail?;
    && row.promoted == (skipped || failed)
    && row.reason == if !CanDeliver(p, gidOf, g) then Some(ModeCFallbackAllPeersIncomplete)
                     else if skipped then Some(AttachIncomplete)
                     else if failed then Some(MaterializeFail)
                     else None
  }

  /** Row i: failed exactly when its own call failed hard, unique exactly when it won, else a duplicate of the winner. */
  ghost predicate RowExplained(p: Plan, gidOf: seq<nat>, winners: seq<Option<nat>>, calls: seq<nat>, rows: seq<Row>, i: nat)
    requires |p.items| == |p.mat| == |p.boundBy| == |gidOf| == |rows| && i < |gidOf|
  {
    && gidOf[i] < |winners|
    && var row, winner := rows[i], winners[gidOf[i]];
    && row.decision.winnerOf == winner
    && (row.decision.role == MaterializeFailed <==> i in calls && p.mat[i].HardFail?)
    && (row.decision.role == Unique <==> winner == Some(i))
    && (row.decision.tier == Some(MessageIdTier) <==> row.decision.role == DupOf && p.boundBy[i] == ByMessageId)
    && (row.decision.tier == Some(ContentHashTier) <==> row.decision.role == DupOf && p.boundBy[i] == ByContentHash)
    && (row.decision.tier == Some(StrongContentHashTier) <==> row.decision.role == DupOf && p.boundBy[i] == ByStrongContentHash)
    && if winner == Some(i) then PromotionExplained(p, gidOf, winners, calls, row, gidOf[i]) else !row.promoted && row.reason == None
  }

  /** The first m groups and their rows are explained. */
  ghost predicate Explained(p: Plan, gidOf: seq<nat>, m: nat, winners: seq<Option<nat>>, calls: seq<nat>, rows: seq<Row>) {
    && |p.items| == |p.mat| == |p.boundBy| == |gidOf| == |rows| && |winners| == |p.groups| && m <= |winners|
    && (forall g: nat {:trigger GroupExplained(p, gidOf, winners, calls, g)} | g < m :: GroupExplained(p, gidOf, winners, calls, g))
    && (forall i: nat {:trigger RowExplained(p, gidOf, winners, calls, rows, i)} | i < |rows| ::
          gidOf[i] < m ==> RowExplained(p, gidOf, winners, calls, rows, i))
  }

  // ---- one walk ----

  lemma GroupPeers(p: Plan, gidOf: seq<nat>, g: nat, ranked: seq<nat>)
    requires ValidPlan(p, gidOf) && g < |p.groups| && GroupInRange(p, g) && ranked == RankSort(p.items, p.ctx, p.groups[g])
    ensures Distinct(ranked) && Ranked(p.items, p.ctx, ranked) && Covers(p.mat, ranked)
    ensures forall x: nat :: x in ranked <==> Member(gidOf, g, x)
  {
    RankSortDistinct(p.items, p.ctx, p.groups[g]);
    RankSortRanks(p.items, p.ctx, p.groups[g]);
    forall x: nat
      ensures x in ranked <==> Member(gidOf, g, x)
    {
      if x < |gidOf| {
        MemberIffGid(p.groups, gidOf, g, x);
      } else if x in ranked {
        MemberGid(p.groups, gidOf, g, x);
      }
    }
  }

  lemma RankKeeps(p: Plan, ranked: seq<nat>, i: nat, j: nat)
    requires Indices(p.items, ranked) && Ranked(p.items, p.ctx, ranked) && i <= j < |ranked|
    ensures K.Keeps(p.items[ranked[i]], p.items[ranked[j]], p.ctx)
  {
    if i == j {
      K.KeepsItself(p.items, p.ctx, ranked[i]);
    } else {
      assert NoWorse(p.items, p.ctx, ranked[i], ranked[j]);
      K.NoWorseKeeps(p.items, p.ctx, ranked[i], ranked[j]);
    }
  }

  /** The first peer that did not fail. */
  lemma {:induction false} FirstMaterialized(mat: seq<MatOutcome>, ranked: seq<nat>, x: nat) returns (p: nat)
    requires Covers(mat, ranked) && x in ranked && !mat[x].HardFail?
    ensures p < |ranked| && !mat[ranked[p]].HardFail? && forall q | 0 <= q < p :: mat[ranked[q]].HardFail?
  {
    if !mat[ranked[0]].HardFail? {
      p := 0;
    } else {
      assert ranked == [ranked[0]] + ranked[1..];
      p := FirstMaterialized(mat, ranked[1..], x);
      p := p + 1;
    }
  }

  lemma WinnerAtFirst(p: Plan, gidOf: seq<nat>, g: nat, ranked: seq<nat>, walk: Walk, w: nat, x: nat)
    requires ValidPlan(p, gidOf) && g < |p.groups| && GroupInRange(p, g) && ranked == RankSort(p.items, p.ctx, p.groups[g])
    requires walk == Pick(p.mat, p.promote, ranked) && walk.winner == Some(w) && NobodyAccepted(p.mat, p.promote, ranked)
    requires x in ranked && w < |p.items| && x < |p.items| && p.mat[x].Incomplete?
    ensures K.Keeps(p.items[w], p.items[x], p.ctx)
  {
    GroupPeers(p, gidOf, g, ranked);
    var first := FirstMaterialized(p.mat, ranked, x);
    forall q | 0 <= q < |ranked|
      ensures !p.mat[ranked[q]].Complete?
    {
      assert ranked[q] in ranked;
    }
    WinnerIsFirstBest(p.mat, p.promote, ranked, first);
    var j :| 0 <= j < |ranked| && ranked[j] == x;
    RankKeeps(p, ranked, first, j);
  }

  lemma NobodyDelivers(p: Plan, gidOf: seq<nat>, g: nat, ranked: seq<nat>)
    requires |p.mat| == |gidOf| && Covers(p.mat, ranked) && forall x: nat :: x in ranked <==> Member(gidOf, g, x)
    ensures NobodyAccepted(p.mat, p.promote, ranked) <==> !CanDeliver(p, gidOf, g)
  {
    forall x: nat | x in ranked
      ensures TakenAsIs(p.mat[x], p.promote) <==> !(p.mat[x].HardFail? || (p.mat[x].Incomplete? && p.promote))
    {
    }
  }

  /** A peer that is taken as it is ends the walk: everybody up to it in rank order was tried. */
  lemma PeersOfDelivered(p: Plan, gidOf: seq<nat>, g: nat, ranked: seq<nat>, walk: Walk, k: nat, x: nat)
    requires ValidPlan(p, gidOf) && g < |p.groups| && GroupInRange(p, g) && ranked == RankSort(p.items, p.ctx, p.groups[g])
    requires Covers(p.mat, ranked) && EndsAt(p.mat, p.promote, ranked, walk, k) && CanDeliver(p, gidOf, g) && Member(gidOf, g, x)
    ensures PeerExplained(p, gidOf, walk.calls, g, ranked[k], x)
  {
    GroupPeers(p, gidOf, g, ranked);
    var j :| 0 <= j < |ranked| && ranked[j] == x;
    PeerAt(p, ranked, walk, k, j);
  }

  lemma PeerAt(p: Plan, ranked: seq<nat>, walk: Walk, k: nat, j: nat)
    requires Indices(p.items, ranked) && Ranked(p.items, p.ctx, ranked) && Distinct(ranked) && Covers(p.mat, ranked)
    requires EndsAt(p.mat, p.promote, ranked, walk, k) && j < |ranked|
    ensures ranked[j] in walk.calls <==> j <= k
    ensures j <= k ==> K.Keeps(p.items[ranked[j]], p.items[ranked[k]], p.ctx)
    ensures j >= k || TakenAsIs(p.mat[ranked[j]], p.promote) ==> K.Keeps(p.items[ranked[k]], p.items[ranked[j]], p.ctx)
  {
    TriedUpTo(ranked, k, j);
    if j <= k {
      RankKeeps(p, ranked, j, k);
    }
    if j >= k {
      RankKeeps(p, ranked, k, j);
    } else {
      assert ranked[..k][j] in ranked[..k];
    }
  }

  lemma TriedUpTo(ranked: seq<nat>, k: nat, j: nat)
    requires Distinct(ranked) && k < |ranked| && j < |ranked|
    ensures ranked[j] in ranked[..k + 1] <==> j <= k
  {
    if j <= k {
      assert ranked[..k + 1][j] == ranked[j];
    }
  }

  lemma DeliveredWalk(p: Plan, gidOf: seq<nat>, g: nat, ranked: seq<nat>, walk: Walk)
    requires ValidPlan(p, gidOf) && g < |p.groups| && GroupInRange(p, g) && ranked == RankSort(p.items, p.ctx, p.groups[g])
    requires Covers(p.mat, ranked) && walk == Pick(p.mat, p.promote, ranked) && CanDeliver(p, gidOf, g)
    ensures walk.winner.Some? && Member(gidOf, g, walk.winner.value) && walk.winner.value in walk.calls && !p.mat[walk.winner.value].HardFail?
    ensures forall x: nat :: Member(gidOf, g, x) ==> PeerExplained(p, gidOf, walk.calls, g, walk.winner.value, x)
  {
    GroupPeers(p, gidOf, g, ranked);
    NobodyDelivers(p, gidOf, g, ranked);
    CallsStopAtFirstAccepted(p.mat, p.promote, ranked);
    var k: nat :| EndsAt(p.mat, p.promote, ranked, walk, k);
    assert ranked[k] in ranked && ranked[..k + 1][k] == ranked[k];
    forall x: nat | Member(gidOf, g, x)
      ensures PeerExplained(p, gidOf, walk.calls, g, walk.winner.value, x)
    {
      PeersOfDelivered(p, gidOf, g, ranked, walk, k, x);
    }
  }

  lemma FallbackWalk(p: Plan, gidOf: seq<nat>, g: nat, ranked: seq<nat>, walk: Walk)
    requires ValidPlan(p, gidOf) && g < |p.groups| && GroupInRange(p, g) && ranked == RankSort(p.items, p.ctx, p.groups[g])
    requires Covers(p.mat, ranked) && walk == Pick(p.mat, p.promote, ranked) && !CanDeliver(p, gidOf, g)
    ensures walk.calls == ranked
    ensures walk.winner.None? ==> forall x: nat :: Member(gidOf, g, x) ==> p.mat[x].HardFail?
    ensures walk.winner.Some? ==>
              && Member(gidOf, g, walk.winner.value) && !p.mat[walk.winner.value].HardFail?
              && forall x: nat :: Member(gidOf, g, x) ==> PeerExplained(p, gidOf, walk.calls, g, walk.winner.value, x)
  {
    GroupPeers(p, gidOf, g, ranked);
    NobodyDelivers(p, gidOf, g, ranked);
    CallsStopAtFirstAccepted(p.mat, p.promote, ranked);
    DroppedIffAllFail(p.mat, p.promote, ranked);
    if walk.winner.Some? {
      WinnerMaterialized(p.mat, p.promote, ranked);
      forall x: nat | Member(gidOf, g, x)
        ensures PeerExplained(p, gidOf, walk.calls, g, walk.winner.value, x)
      {
        if p.mat[x].Incomplete? {
          WinnerAtFirst(p, gidOf, g, ranked, walk, walk.winner.value, x);
        }
      }
    }
  }

  // ---- from one walk to the run ----

  /** Over the run a member was tried exactly when its own group's walk tried it. */
  ghost predicate SameCalls(gidOf: seq<nat>, g: nat, own: seq<nat>, calls: seq<nat>) {
    forall x: nat {:trigger Member(gidOf, g, x)} :: Member(gidOf, g, x) ==> (x in own <==> x in calls)
  }

  lemma {:induction false} CallsStay(p: Plan, n: nat, m: nat, x: nat)
    requires InRange(p) && n <= m <= |p.groups| && x in Calls(p, n)
    ensures x in Calls(p, m)
    decreases m - n
  {
    if n < m {
      var next := n + 1;
      assert GroupInRange(p, n);
      CallsGrow(p, n, next, x);
      CallsStay(p, next, m, x);
    }
  }

  lemma CalledInRun(p: Plan, m: nat, g: nat, x: nat)
    requires InRange(p) && g < m <= |p.groups| && GroupInRange(p, g) && x in WalkOf(p, g).calls
    ensures x in Calls(p, m)
  {
    var next := g + 1;
    CallsGrow(p, g, next, x);
    CallsStay(p, next, m, x);
  }

  lemma CallsGrow(p: Plan, n: nat, m: nat, x: nat)
    requires InRange(p) && m == n + 1 <= |p.groups| && GroupInRange(p, n)
    ensures x in Calls(p, m) <==> x in Calls(p, n) || x in WalkOf(p, n).calls
  {
  }

  lemma {:induction false} CalledByOwn(p: Plan, gidOf: seq<nat>, m: nat, x: nat)
    requires ValidPlan(p, gidOf) && InRange(p) && m <= |p.groups| && x in Calls(p, m)
    ensures x < |gidOf| && gidOf[x] < m && GroupInRange(p, gidOf[x]) && x in WalkOf(p, gidOf[x]).calls
  {
    var n := m - 1;
    assert GroupInRange(p, n);
    if x in Calls(p, n) {
      CalledByOwn(p, gidOf, n, x);
    } else {
      CallsOfGroup(p, gidOf, n);
    }
  }

  lemma RunCalls(p: Plan, gidOf: seq<nat>, m: nat, g: nat)
    requires ValidPlan(p, gidOf) && InRange(p) && g < m <= |p.groups| && GroupInRange(p, g)
    ensures SameCalls(gidOf, g, WalkOf(p, g).calls, Calls(p, m))
  {
    forall x: nat | Member(gidOf, g, x)
      ensures x in WalkOf(p, g).calls <==> x in Calls(p, m)
    {
      if x in WalkOf(p, g).calls {
        CalledInRun(p, m, g, x);
      } else if x in Calls(p, m) {
        CalledByOwn(p, gidOf, m, x);
      }
    }
  }

  lemma GroupIsExplained(p: Plan, gidOf: seq<nat>, winners: seq<Option<nat>>, calls: seq<nat>, g: nat)
    requires ValidPlan(p, gidOf) && InRange(p) && g < |p.groups| && GroupInRange(p, g)
    requires g < |winners| && winners[g] == WalkOf(p, g).winner && SameCalls(gidOf, g, WalkOf(p, g).calls, calls)
    ensures GroupExplained(p, gidOf, winners, calls, g)
  {
    var ranked, walk := RankSort(p.items, p.ctx, p.groups[g]), WalkOf(p, g);
    GroupPeers(p, gidOf, g, ranked);
    if CanDeliver(p, gidOf, g) {
      DeliveredWalk(p, gidOf, g, ranked, walk);
    } else {
      FallbackWalk(p, gidOf, g, ranked, walk);
    }
    if walk.winner.Some? {
      forall x: nat | Member(gidOf, g, x)
        ensures PeerExplained(p, gidOf, calls, g, walk.winner.value, x)
      {
        assert PeerExplained(p, gidOf, walk.calls, g, walk.winner.value, x);
      }
    }
  }

  lemma PromotionIsExplained(p: Plan, gidOf: seq<nat>, winners: seq<Option<nat>>, calls: seq<nat>, row: Row, g: nat)
    requires ValidPlan(p, gidOf) && InRange(p) && g < |p.groups| && GroupInRange(p, g)
    requires g < |winners| && winners[g] == WalkOf(p, g).winner && SameCalls(gidOf, g, WalkOf(p, g).calls, calls)
    requires winners[g].Some? && row.promoted == WalkOf(p, g).promoted && row.reason == WalkOf(p, g).reason
    ensures PromotionExplained(p, gidOf, winners, calls, row, g)
  {
    var ranked, walk := RankSort(p.items, p.ctx, p.groups[g]), WalkOf(p, g);
    GroupPeers(p, gidOf, g, ranked);
    NobodyDelivers(p, gidOf, g, ranked);
    ListsExplained(p.mat, p.promote, ranked);
    PromotionFromLists(p.mat, p.promote, ranked);
    WinnerMaterialized(p.mat, p.promote, ranked);
    CallsArePrefix(p.mat, p.promote, ranked);
    LosersListed(p, gidOf, winners, calls, g, walk);
  }

  lemma LosersListed(p: Plan, gidOf: seq<nat>, winners: seq<Option<nat>>, calls: seq<nat>, g: nat, walk: Walk)
    requires |p.mat| == |gidOf| && g < |winners| && winners[g] == walk.winner && walk.winner.Some?
    requires walk.winner.value < |p.mat| && !p.mat[walk.winner.value].HardFail?
    requires ListsSay(p.mat, walk) && SameCalls(gidOf, g, walk.calls, calls) && forall x | x in walk.calls :: Member(gidOf, g, x)
    ensures walk.skipped != [] <==> exists x: nat :: Loses(gidOf, winners, calls, p.mat, x, g) && p.mat[x].Incomplete?
    ensures walk.failed != [] <==> exists x: nat :: Loses(gidOf, winners, calls, p.mat, x, g) && p.mat[x].HardFail?
  {
    if walk.skipped != [] {
      assert walk.skipped[0] in walk.skipped;
      assert Loses(gidOf, winners, calls, p.mat, walk.skipped[0], g);
    }
    if walk.failed != [] {
      assert walk.failed[0] in walk.failed;
      assert Loses(gidOf, winners, calls, p.mat, walk.failed[0], g);
    }
  }

  // ---- the whole run ----

  /** The failed peers of a walk are the members whose call failed, and the winner is not among them. */
  lemma FailedOrNot(p: Plan, gidOf: seq<nat>, winners: seq<Option<nat>>, calls: seq<nat>, i: nat)
    requires ValidPlan(p, gidOf) && i < |gidOf| && GroupInRange(p, gidOf[i])
    requires SameCalls(gidOf, gidOf[i], WalkOf(p, gidOf[i]).calls, calls)
    ensures i in WalkOf(p, gidOf[i]).failed <==> i in calls && p.mat[i].HardFail?
  {
    var ranked := RankSort(p.items, p.ctx, p.groups[gidOf[i]]);
    GroupPeers(p, gidOf, gidOf[i], ranked);
    ListsExplained(p.mat, p.promote, ranked);
    assert Member(gidOf, gidOf[i], i);
  }

  lemma RowIsExplained(p: Plan, gidOf: seq<nat>, winners: seq<Option<nat>>, calls: seq<nat>, rows: seq<Row>, i: nat)
    requires ValidPlan(p, gidOf) && InRange(p) && |rows| == |gidOf| && i < |gidOf| && |winners| == |p.groups|
    requires GroupInRange(p, gidOf[i]) && winners[gidOf[i]] == WalkOf(p, gidOf[i]).winner
    requires SameCalls(gidOf, gidOf[i], WalkOf(p, gidOf[i]).calls, calls)
    requires GroupExplained(p, gidOf, winners, calls, gidOf[i])
    requires rows[i] == FinalRow(WalkOf(p, gidOf[i]), i, p.boundBy[i])
    ensures RowExplained(p, gidOf, winners, calls, rows, i)
  {
    FailedOrNot(p, gidOf, winners, calls, i);
    assert Member(gidOf, gidOf[i], i);
    if winners[gidOf[i]] == Some(i) {
      PromotionIsExplained(p, gidOf, winners, calls, rows[i], gidOf[i]);
    }
    RowFrom(p, gidOf, winners, calls, rows, i, WalkOf(p, gidOf[i]));
  }

  lemma RowFrom(p: Plan, gidOf: seq<nat>, winners: seq<Option<nat>>, calls: seq<nat>, rows: seq<Row>, i: nat, walk: Walk)
    requires |p.items| == |p.mat| == |p.boundBy| == |gidOf| == |rows| && i < |gidOf| && gidOf[i] < |winners|
    requires winners[gidOf[i]] == walk.winner && rows[i] == FinalRow(walk, i, p.boundBy[i])
    requires i in walk.failed <==> i in calls && p.mat[i].HardFail?
    requires walk.winner.None? ==> i in calls && p.mat[i].HardFail?
    requires walk.winner == Some(i) ==> !p.mat[i].HardFail? && PromotionExplained(p, gidOf, winners, calls, rows[i], gidOf[i])
    ensures RowExplained(p, gidOf, winners, calls, rows, i)
  {
  }

  /** Every group that is dealt with, and every row of it, is explained by the calls that were made and what they gave. */
  lemma RunIsExplained(p: Plan, gidOf: seq<nat>, m: nat, n: nat, before: seq<Row>, rows: seq<Row>)
    requires ValidPlan(p, gidOf) && InRange(p) && m <= n <= |p.groups| && |before| == |rows| == |p.items|
    requires SettledTo(p, gidOf, m, before, rows)
    ensures Explained(p, gidOf, m, WinnerList(p), Calls(p, n), rows)
  {
    var winners, calls := WinnerList(p), Calls(p, n);
    forall g: nat | g < m
      ensures GroupExplained(p, gidOf, winners, calls, g)
    {
      RunCalls(p, gidOf, n, g);
      GroupIsExplained(p, gidOf, winners, calls, g);
    }
    forall i: nat | i < |rows| && gidOf[i] < m
      ensures RowExplained(p, gidOf, winners, calls, rows, i)
    {
      assert RowSettled(p, gidOf, m, before, rows, i);
      assert GroupInRange(p, gidOf[i]) && GroupExplained(p, gidOf, winners, calls, gidOf[i]);
      RunCalls(p, gidOf, n, gidOf[i]);
      RowIsExplained(p, gidOf, winners, calls, rows, i);
    }
  }

  // ---- the counters ----

  /** The rows with a role, and with a tag where one is asked for. */
  function RowsWith(rows: seq<Row>, tags: seq<BoundBy>, role: Role, tag: Option<BoundBy>): set<nat>
    requires |rows| == |tags|
  {
    set i: nat | i < |rows| && rows[i].decision.role == role && (tag.Some? ==> tags[i] == tag.value)
  }

  /** The kinds of rows that are counted are the roles, and the tags with which duplicates joined. */
  lemma CountsMean(gidOf: seq<nat>, winners: seq<Option<nat>>, tags: seq<BoundBy>, rows: seq<Row>)
    requires Settled(gidOf, winners, tags, rows)
    ensures |Which(Kinds(rows), |rows|, UniqueRow)| == |RowsWith(rows, tags, Unique, None)|
    ensures |Which(Kinds(rows), |rows|, FailedRow)| == |RowsWith(rows, tags, MaterializeFailed, None)|
    ensures |Which(Kinds(rows), |rows|, Tier1Dup)| == |RowsWith(rows, tags, DupOf, Some(ByMessageId))|
    ensures |Which(Kinds(rows), |rows|, Tier2Dup)| ==
            |RowsWith(rows, tags, DupOf, Some(ByContentHash))| + |RowsWith(rows, tags, DupOf, Some(ByStrongContentHash))|
  {
    var kinds := Kinds(rows);
    forall i: nat | i < |rows|
      ensures kinds[i] == UniqueRow <==> rows[i].decision.role == Unique
      ensures kinds[i] == FailedRow <==> rows[i].decision.role == MaterializeFailed
      ensures kinds[i] == Tier1Dup <==> rows[i].decision.role == DupOf && tags[i] == ByMessageId
      ensures kinds[i] == Tier2Dup <==> rows[i].decision.role == DupOf && (tags[i] == ByContentHash || tags[i] == ByStrongContentHash)
    {
      assert RowOk(gidOf, winners, tags, rows, i);
    }
    assert Which(kinds, |rows|, UniqueRow) == RowsWith(rows, tags, Unique, None);
    assert Which(kinds, |rows|, FailedRow) == RowsWith(rows, tags, MaterializeFailed, None);
    assert Which(kinds, |rows|, Tier1Dup) == RowsWith(rows, tags, DupOf, Some(ByMessageId));
    assert Which(kinds, |rows|, Tier2Dup) == RowsWith(rows, tags, DupOf, Some(ByContentHash)) + RowsWith(rows, tags, DupOf, Some(ByStrongContentHash));
  }

  /** The caller refuses a winner. */
  ghost predicate Turned(winners: seq<Option<nat>>, rejects: set<nat>, g: nat) {
    g < |winners| && winners[g].Some? && winners[g].value in rejects
  }

  lemma NobodyTurned(p: Plan, m: nat, dropped: seq<bool>)
    requires InRange(p) && |dropped| == |p.groups| && m <= |p.groups|
    requires forall g: nat {:trigger Walked(p, dropped, g)} | g < m :: GroupInRange(p, g) && Walked(p, dropped, g)
    ensures forall g: nat | g < m :: !Turned(WinnerList(p), p.rejects, g)
  {
    forall g: nat | g < m
      ensures !Turned(WinnerList(p), p.rejects, g)
    {
      assert GroupInRange(p, g) && Walked(p, dropped, g);
    }
  }

  lemma CallsOneMore(p: Plan, m: nat, next: nat)
    requires InRange(p) && next == m + 1 <= |p.groups| && GroupInRange(p, m)
    ensures Calls(p, next) == Calls(p, m) + WalkOf(p, m).calls
  {
  }

  /** A run that stopped at a refused winner: the groups before it are explained, and nobody was turned away earlier. */
  lemma StoppedRun(p: Plan, gidOf: seq<nat>, m: nat, before: seq<Row>, rows: seq<Row>, dropped: seq<bool>,
                   skips: seq<SoftSkip>, delivered: seq<nat>, calls: seq<nat>)
    requires ValidPlan(p, gidOf) && InRange(p) && |before| == |rows| == |p.items| && |dropped| == |p.groups|
    requires Stopped(p, gidOf, m, before, rows, dropped, skips, delivered, calls)
    ensures Turned(WinnerList(p), p.rejects, m) && forall h: nat | h < m :: !Turned(WinnerList(p), p.rejects, h)
    ensures Explained(p, gidOf, m, WinnerList(p), calls, rows)
  {
    var next := m + 1;
    CallsOneMore(p, m, next);
    RunIsExplained(p, gidOf, m, next, before, rows);
    NobodyTurned(p, m, dropped);
  }

  /** A complete run: every group and row is explained, nobody was tried twice, and the books balance. */
  lemma CompleteRun(p: Plan, gidOf: seq<nat>, before: seq<Row>, rows: seq<Row>, dropped: seq<bool>)
    requires ValidPlan(p, gidOf) && InRange(p) && |before| == |rows| == |p.items| && |dropped| == |p.groups|
    requires SettledTo(p, gidOf, |p.groups|, before, rows)
    requires forall g: nat {:trigger Walked(p, dropped, g)} | g < |p.groups| :: Walked(p, dropped, g)
    requires forall i: nat | i < |p.boundBy| :: p.boundBy[i] == Seed <==> p.groups[gidOf[i]][0] == i
    ensures Explained(p, gidOf, |p.groups|, WinnerList(p), Calls(p, |p.groups|), rows) && Distinct(Calls(p, |p.groups|))
    ensures Settled(gidOf, WinnerList(p), p.boundBy, rows)
    ensures |Which(Kinds(rows), |rows|, UniqueRow)| == |Delivered(WinnerList(p), |p.groups|)| == |p.groups| - CountTrue(dropped)
    ensures Which(Kinds(rows), |rows|, UntieredDup) == LostSeeds(p.groups, gidOf, rows)
  {
    var winners := WinnerList(p);
    RunIsExplained(p, gidOf, |p.groups|, |p.groups|, before, rows);
    NoPeerTwice(p, gidOf, |p.groups|);
    FinalizationSettles(p, gidOf, before, rows);
    forall g | 0 <= g < |winners|
      ensures dropped[g] == winners[g].None?
    {
      assert Walked(p, dropped, g);
    }
    BooksBalance(p.groups, gidOf, winners, p.boundBy, rows, dropped);
  }

  // ---- the skipped peers ----

  lemma {:induction false} SkipsMean(p: Plan, gidOf: seq<nat>, m: nat, skip: SoftSkip)
    requires ValidPlan(p, gidOf) && InRange(p) && m <= |p.groups|
    ensures skip in Skips(p, m) <==>
            && skip.peer < |gidOf| && gidOf[skip.peer] < m && GroupInRange(p, gidOf[skip.peer])
            && WalkOf(p, gidOf[skip.peer]).winner == Some(skip.winner) && skip.winner != skip.peer
            && skip.peer in Calls(p, m) && p.mat[skip.peer].Incomplete?
  {
    if m > 0 {
      var n := m - 1;
      SkipsMean(p, gidOf, n, skip);
      assert GroupInRange(p, n);
      GroupSkips(p, gidOf, n, skip);
      SkipsOneMore(p, n, m);
      CalledNext(p, gidOf, n, m, skip.peer);
    }
  }

  lemma SkipsOneMore(p: Plan, n: nat, next: nat)
    requires InRange(p) && next == n + 1 <= |p.groups| && GroupInRange(p, n)
    ensures Skips(p, next) == Skips(p, n) + SkipsOf(WalkOf(p, n))
  {
  }

  /** A peer of group n is called by that group's walk or not at all, and its walk calls no other peer. */
  lemma CalledNext(p: Plan, gidOf: seq<nat>, n: nat, next: nat, i: nat)
    requires ValidPlan(p, gidOf) && InRange(p) && next == n + 1 <= |p.groups| && GroupInRange(p, n)
    requires forall x | x in WalkOf(p, n).calls :: Member(gidOf, n, x)
    ensures i in Calls(p, n) ==> i < |gidOf| && gidOf[i] < n
    ensures i in Calls(p, next) <==> i in Calls(p, n) || i in WalkOf(p, n).calls
  {
    CallsGrow(p, n, next, i);
    if i in Calls(p, n) {
      CalledByOwn(p, gidOf, n, i);
    }
  }

  lemma GroupSkips(p: Plan, gidOf: seq<nat>, g: nat, skip: SoftSkip)
    requires ValidPlan(p, gidOf) && g < |p.groups| && GroupInRange(p, g)
    ensures forall x | x in WalkOf(p, g).calls :: Member(gidOf, g, x)
    ensures skip in SkipsOf(WalkOf(p, g)) <==>
            && WalkOf(p, g).winner == Some(skip.winner) && skip.winner != skip.peer
            && skip.peer in WalkOf(p, g).calls && p.mat[skip.peer].Incomplete?
  {
    var ranked, walk := RankSort(p.items, p.ctx, p.groups[g]), WalkOf(p, g);
    GroupPeers(p, gidOf, g, ranked);
    CallsArePrefix(p.mat, p.promote, ranked);
    ListsExplained(p.mat, p.promote, ranked);
    if walk.winner.Some? && walk.winner.value == skip.winner && skip.peer in walk.skipped {
      var k :| 0 <= k < |walk.skipped| && walk.skipped[k] == skip.peer;
      assert SkipsOf(walk)[k] == skip;
    }
  }
}
