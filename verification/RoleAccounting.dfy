/** After finalization the roles account for every item, and the summary counters (`to_keep_set`) say so. */
module RoleAccounting {
  import opened Common
  import opened Grouping
  import opened ScanItems
  import opened GroupLists
  import opened Resolve
  import opened PeerWalk
  import opened Finalize

  /** Row i is settled by its group's winner: unique if it is the winner, else a tagged duplicate of it or failed. */
  predicate RowOk(gidOf: seq<nat>, winners: seq<Option<nat>>, tags: seq<BoundBy>, rows: seq<Row>, i: nat)
    requires |gidOf| == |tags| == |rows| && i < |rows|
  {
    && gidOf[i] < |winners|
    && (rows[i].decision.role == Unique <==> winners[gidOf[i]] == Some(i))
    && (rows[i].decision.role == DupOf ==>
          winners[gidOf[i]].Some? && rows[i].decision.winnerOf == winners[gidOf[i]] && rows[i].decision.tier == TierOf(tags[i]))
    && (rows[i].decision.role == MaterializeFailed ==>
          rows[i].decision.winnerOf == winners[gidOf[i]] && rows[i].decision.tier == None)
  }

  /** A group's winner is one of its members. */
  predicate OwnWinner(gidOf: seq<nat>, winners: seq<Option<nat>>, g: nat)
    requires g < |winners|
  {
    winners[g].Some? ==> winners[g].value < |gidOf| && gidOf[winners[g].value] == g
  }

  /** A finalized keep set, as far as the roles go. */
  ghost predicate Settled(gidOf: seq<nat>, winners: seq<Option<nat>>, tags: seq<BoundBy>, rows: seq<Row>) {
    && |gidOf| == |tags| == |rows|
    && (forall i: nat {:trigger RowOk(gidOf, winners, tags, rows, i)} | i < |rows| :: RowOk(gidOf, winners, tags, rows, i))
    && (forall g: nat {:trigger OwnWinner(gidOf, winners, g)} | g < |winners| :: OwnWinner(gidOf, winners, g))
  }

  /** A group's winner is one of its members and did not fail; a failed peer was tried. */
  lemma WalkStaysInGroup(p: Plan, gidOf: seq<nat>, g: nat)
    requires ValidPlan(p, gidOf) && g < |p.groups| && GroupInRange(p, g)
    ensures var walk := WalkOf(p, g);
            && (walk.winner.Some? ==> var w := walk.winner.value; w < |gidOf| && gidOf[w] == g && w !in walk.failed)
            && (forall x | x in walk.failed :: x in walk.calls && x < |p.mat| && p.mat[x] == HardFail)
  {
    var ranked := RankSort(p.items, p.ctx, p.groups[g]);
    FailedAreHard(p.mat, p.promote, ranked);
    if WalkOf(p, g).winner.Some? {
      WinnerMaterialized(p.mat, p.promote, ranked);
      MemberGid(p.groups, gidOf, g, WalkOf(p, g).winner.value);
    }
  }

  lemma FailedAreHard(mat: seq<MatOutcome>, promote: bool, ranked: seq<nat>)
    requires Covers(mat, ranked)
    ensures var walk := Pick(mat, promote, ranked);
            forall x | x in walk.failed :: x in walk.calls && x < |mat| && mat[x] == HardFail
  {
    OnlyMembers(mat, ranked, HardFail);
    match FirstAccepted(mat, promote, ranked)
    case Some(k) =>
      OnlyMembers(mat, ranked[..k], HardFail);
      assert ranked[..k + 1] == ranked[..k] + [ranked[k]];
    case None =>
  }

  lemma FinalRowOk(p: Plan, gidOf: seq<nat>, winners: seq<Option<nat>>, rows: seq<Row>, walk: Walk, i: nat)
    requires |gidOf| == |p.boundBy| == |rows| && i < |rows| && gidOf[i] < |winners| && winners[gidOf[i]] == walk.winner
    requires walk.winner.Some? ==> walk.winner.value !in walk.failed
    requires rows[i] == FinalRow(walk, i, p.boundBy[i])
    ensures RowOk(gidOf, winners, p.boundBy, rows, i)
  {
  }

  /** A complete run of finalization settles the keep set. */
  lemma FinalizationSettles(p: Plan, gidOf: seq<nat>, before: seq<Row>, rows: seq<Row>)
    requires ValidPlan(p, gidOf) && InRange(p) && |before| == |rows| == |p.items|
    requires SettledTo(p, gidOf, |p.groups|, before, rows)
    ensures Settled(gidOf, WinnerList(p), p.boundBy, rows)
  {
    var winners := WinnerList(p);
    forall i: nat | i < |rows|
      ensures RowOk(gidOf, winners, p.boundBy, rows, i)
    {
      assert RowSettled(p, gidOf, |p.groups|, before, rows, i);
      assert GroupInRange(p, gidOf[i]);
      WalkStaysInGroup(p, gidOf, gidOf[i]);
      FinalRowOk(p, gidOf, winners, rows, WalkOf(p, gidOf[i]), i);
    }
    forall g: nat | g < |winners|
      ensures OwnWinner(gidOf, winners, g)
    {
      WalkStaysInGroup(p, gidOf, g);
    }
  }

  /** Every DupOf row points to the one Unique row of its own group. */
  lemma DupPointsToUnique(gidOf: seq<nat>, winners: seq<Option<nat>>, tags: seq<BoundBy>, rows: seq<Row>, i: nat)
    requires Settled(gidOf, winners, tags, rows) && i < |rows| && rows[i].decision.role == DupOf
    ensures rows[i].decision.winnerOf.Some?
    ensures var w := rows[i].decision.winnerOf.value;
            && w < |rows| && gidOf[w] == gidOf[i] && rows[w].decision.role == Unique
            && forall j | 0 <= j < |rows| && gidOf[j] == gidOf[i] && rows[j].decision.role == Unique :: j == w
  {
    assert RowOk(gidOf, winners, tags, rows, i) && OwnWinner(gidOf, winners, gidOf[i]);
    var w := rows[i].decision.winnerOf.value;
    assert RowOk(gidOf, winners, tags, rows, w);
    forall j | 0 <= j < |rows| && gidOf[j] == gidOf[i] && rows[j].decision.role == Unique
      ensures j == w
    {
      assert RowOk(gidOf, winners, tags, rows, j);
    }
  }

  // ---- counting ----

  datatype Kind = UniqueRow | Tier1Dup | Tier2Dup | UntieredDup | FailedRow

  function KindOf(row: Row): Kind {
    match row.decision.role
    case Unique => UniqueRow
    case DupOf =>
      (match row.decision.tier
       case Some(MessageIdTier) => Tier1Dup
       case Some(ContentHashTier) => Tier2Dup
       case Some(StrongContentHashTier) => Tier2Dup
       case None => UntieredDup)
    case MaterializeFailed => FailedRow
  }

  function Kinds(rows: seq<Row>): (r: seq<Kind>)
    ensures |r| == |rows| && forall i | 0 <= i < |r| :: r[i] == KindOf(rows[i])
  {
    seq(|rows|, i requires 0 <= i < |rows| => KindOf(rows[i]))
  }

  /** The positions of one kind among the first k. */
  function Which(kinds: seq<Kind>, k: nat, kind: Kind): set<nat>
    requires k <= |kinds|
  {
    set i | 0 <= i < k && kinds[i] == kind
  }

  lemma WhichGrows(kinds: seq<Kind>, k: nat, kind: Kind)
    requires k < |kinds|
    ensures |Which(kinds, k + 1, kind)| == |Which(kinds, k, kind)| + One(kinds[k] == kind)
  {
    if kinds[k] == kind {
      assert Which(kinds, k + 1, kind) == Which(kinds, k, kind) + {k};
    } else {
      assert Which(kinds, k + 1, kind) == Which(kinds, k, kind);
    }
  }

  datatype KeepSetStats = KeepSetStats(
    recoverable: nat, groups: nat, groupsDropped: nat, unique: nat, duplicates: nat, tier1Dups: nat, tier2Dups: nat, materializeFailed: nat)

  function CountTrue(flags: seq<bool>): nat {
    if flags == [] then 0 else CountTrue(flags[..|flags| - 1]) + One(flags[|flags| - 1])
  }

  /** The counting loop of the keep-set summary. */
  method Summarize(rows: seq<Row>, groupDropped: seq<bool>) returns (stats: KeepSetStats)
    ensures stats.recoverable == |rows| && stats.groups == |groupDropped| && stats.groupsDropped == CountTrue(groupDropped)
    ensures stats.unique == |Which(Kinds(rows), |rows|, UniqueRow)| && stats.materializeFailed == |Which(Kinds(rows), |rows|, FailedRow)|
    ensures stats.tier1Dups == |Which(Kinds(rows), |rows|, Tier1Dup)| && stats.tier2Dups == |Which(Kinds(rows), |rows|, Tier2Dup)|
    ensures stats.duplicates == stats.tier1Dups + stats.tier2Dups + |Which(Kinds(rows), |rows|, UntieredDup)|
    ensures stats.unique + stats.duplicates + stats.materializeFailed == stats.recoverable
  {
    stats := KeepSetStats(|rows|, |groupDropped|, CountTrue(groupDropped), 0, 0, 0, 0, 0);
    ghost var untiered, kinds := 0, Kinds(rows);
    for i := 0 to |rows|
      invariant stats.recoverable == |rows| && stats.groups == |groupDropped| && stats.groupsDropped == CountTrue(groupDropped)
      invariant stats.unique == |Which(kinds, i, UniqueRow)| && stats.materializeFailed == |Which(kinds, i, FailedRow)|
      invariant stats.tier1Dups == |Which(kinds, i, Tier1Dup)| && stats.tier2Dups == |Which(kinds, i, Tier2Dup)|
      invariant untiered == |Which(kinds, i, UntieredDup)| && stats.duplicates == stats.tier1Dups + stats.tier2Dups + untiered
      invariant stats.unique + stats.duplicates + stats.materializeFailed == i
    {
      WhichGrows(kinds, i, UniqueRow);
      WhichGrows(kinds, i, FailedRow);
      WhichGrows(kinds, i, Tier1Dup);
      WhichGrows(kinds, i, Tier2Dup);
      WhichGrows(kinds, i, UntieredDup);
      match rows[i].decision.role
      case Unique => stats := stats.(unique := stats.unique + 1);
      case DupOf =>
        stats := stats.(duplicates := stats.duplicates + 1);
        match rows[i].decision.tier {
          case Some(MessageIdTier) => stats := stats.(tier1Dups := stats.tier1Dups + 1);
          case Some(_) => stats := stats.(tier2Dups := stats.tier2Dups + 1);
          case None => untiered := untiered + 1;
        }
      case MaterializeFailed => stats := stats.(materializeFailed := stats.materializeFailed + 1);
    }
  }

  /** The unique rows of the first m groups. */
  ghost function UniquesBelow(gidOf: seq<nat>, rows: seq<Row>, m: nat): set<nat>
    requires |gidOf| == |rows|
  {
    set i | 0 <= i < |rows| && gidOf[i] < m && rows[i].decision.role == Unique
  }

  /** The number of groups among the first m that have a winner. */
  function Kept(winners: seq<Option<nat>>, m: nat): nat
    requires m <= |winners|
  {
    if m == 0 then 0 else Kept(winners, m - 1) + One(winners[m - 1].Some?)
  }

  lemma UniqueOf(gidOf: seq<nat>, winners: seq<Option<nat>>, tags: seq<BoundBy>, rows: seq<Row>, g: nat)
    requires Settled(gidOf, winners, tags, rows) && g < |winners|
    ensures UniquesBelow(gidOf, rows, g + 1) ==
            UniquesBelow(gidOf, rows, g) + (if winners[g].Some? then {winners[g].value} else {})
    ensures winners[g].Some? ==> winners[g].value !in UniquesBelow(gidOf, rows, g)
  {
    assert OwnWinner(gidOf, winners, g);
    if winners[g].Some? {
      assert RowOk(gidOf, winners, tags, rows, winners[g].value);
    }
    forall i | 0 <= i < |rows|
      ensures i in UniquesBelow(gidOf, rows, g + 1) <==>
              i in UniquesBelow(gidOf, rows, g) || winners[g] == Some(i)
    {
      assert RowOk(gidOf, winners, tags, rows, i);
    }
  }

  lemma {:induction false} UniquesAreKept(gidOf: seq<nat>, winners: seq<Option<nat>>, tags: seq<BoundBy>, rows: seq<Row>, m: nat)
    requires Settled(gidOf, winners, tags, rows) && m <= |winners|
    ensures |UniquesBelow(gidOf, rows, m)| == Kept(winners, m)
  {
    if m == 0 {
      assert UniquesBelow(gidOf, rows, m) == {};
    } else {
      UniquesAreKept(gidOf, winners, tags, rows, m - 1);
      UniqueOf(gidOf, winners, tags, rows, m - 1);
    }
  }

  lemma {:induction false} KeptPlusDropped(winners: seq<Option<nat>>, dropped: seq<bool>, m: nat)
    requires m <= |winners| == |dropped| && forall g | 0 <= g < m :: dropped[g] == winners[g].None?
    ensures Kept(winners, m) + CountTrue(dropped[..m]) == m
  {
    if m > 0 {
      KeptPlusDropped(winners, dropped, m - 1);
      assert dropped[..m][..m - 1] == dropped[..m - 1];
    }
  }

  lemma {:induction false} DeliveredAreKept(winners: seq<Option<nat>>, m: nat)
    requires m <= |winners|
    ensures |Delivered(winners, m)| == Kept(winners, m)
  {
    if m > 0 {
      DeliveredAreKept(winners, m - 1);
    }
  }

  /** The seeds that ended as duplicates. */
  ghost function LostSeeds(groups: seq<seq<nat>>, gidOf: seq<nat>, rows: seq<Row>): set<nat>
    requires |gidOf| == |rows| && forall i | 0 <= i < |gidOf| :: gidOf[i] < |groups| && groups[gidOf[i]] != []
  {
    set i | 0 <= i < |rows| && rows[i].decision.role == DupOf && groups[gidOf[i]][0] == i
  }

  /**
   The books after a complete run: the unique rows are as many as the groups that were not dropped, and the duplicates
   without a tier are exactly the seeds that ended as duplicates.
   */
  lemma BooksBalance(groups: seq<seq<nat>>, gidOf: seq<nat>, winners: seq<Option<nat>>, tags: seq<BoundBy>, rows: seq<Row>,
                     dropped: seq<bool>)
    requires Settled(gidOf, winners, tags, rows) && |groups| == |winners| == |dropped|
    requires forall g | 0 <= g < |winners| :: dropped[g] == winners[g].None?
    requires forall i | 0 <= i < |gidOf| :: gidOf[i] < |groups| && groups[gidOf[i]] != []
    requires forall i | 0 <= i < |tags| :: tags[i] == Seed <==> groups[gidOf[i]][0] == i
    ensures |Which(Kinds(rows), |rows|, UniqueRow)| == |Delivered(winners, |winners|)| == |groups| - CountTrue(dropped)
    ensures Which(Kinds(rows), |rows|, UntieredDup) == LostSeeds(groups, gidOf, rows)
  {
    UniquesAreKept(gidOf, winners, tags, rows, |winners|);
    forall i | 0 <= i < |rows|
      ensures i in UniquesBelow(gidOf, rows, |winners|) <==> KindOf(rows[i]) == UniqueRow
      ensures KindOf(rows[i]) == UntieredDup <==> rows[i].decision.role == DupOf && groups[gidOf[i]][0] == i
    {
      assert RowOk(gidOf, winners, tags, rows, i);
    }
    assert UniquesBelow(gidOf, rows, |winners|) == Which(Kinds(rows), |rows|, UniqueRow);
    KeptPlusDropped(winners, dropped, |winners|);
    DeliveredAreKept(winners, |winners|);
    assert dropped[..|winners|] == dropped;
  }

  /** The peers materialized for a group are members of it. */
  lemma {:induction false} CallsComeFromGroups(p: Plan, gidOf: seq<nat>, m: nat, x: nat)
    requires ValidPlan(p, gidOf) && InRange(p) && m <= |p.groups| && x in Calls(p, m)
    ensures x < |gidOf| && gidOf[x] < m
  {
    var g := m - 1;
    assert GroupInRange(p, g);
    if x in Calls(p, g) {
      CallsComeFromGroups(p, gidOf, g, x);
    } else {
      CallsOfGroup(p, gidOf, g);
    }
  }

  lemma CallsOfGroup(p: Plan, gidOf: seq<nat>, g: nat)
    requires ValidPlan(p, gidOf) && g < |p.groups| && GroupInRange(p, g)
    ensures Distinct(WalkOf(p, g).calls)
    ensures forall x | x in WalkOf(p, g).calls :: x < |gidOf| && gidOf[x] == g
  {
    var ranked := RankSort(p.items, p.ctx, p.groups[g]);
    CallsArePrefix(p.mat, p.promote, ranked);
    RankSortDistinct(p.items, p.ctx, p.groups[g]);
    forall x | x in WalkOf(p, g).calls
      ensures x < |gidOf| && gidOf[x] == g
    {
      assert x in ranked;
      MemberGid(p.groups, gidOf, g, x);
    }
  }

  /** What is materialized for one group was not for an earlier one. */
  lemma CallsApart(p: Plan, gidOf: seq<nat>, g: nat)
    requires ValidPlan(p, gidOf) && InRange(p) && g < |p.groups| && GroupInRange(p, g)
    ensures forall x | x in Calls(p, g) :: x !in WalkOf(p, g).calls
  {
    CallsOfGroup(p, gidOf, g);
    forall x | x in Calls(p, g)
      ensures x !in WalkOf(p, g).calls
    {
      CallsComeFromGroups(p, gidOf, g, x);
    }
  }

  lemma NoPeerAgain(p: Plan, gidOf: seq<nat>, g: nat, m: nat)
    requires ValidPlan(p, gidOf) && InRange(p) && m == g + 1 <= |p.groups| && GroupInRange(p, g)
    ensures Distinct(Calls(p, g)) ==> Distinct(Calls(p, m))
  {
    CallsOfGroup(p, gidOf, g);
    CallsApart(p, gidOf, g);
    if Distinct(Calls(p, g)) {
      DistinctConcat(Calls(p, g), WalkOf(p, g).calls);
    }
  }

  /** Over a whole run no peer is materialized twice. */
  lemma {:induction false} NoPeerTwice(p: Plan, gidOf: seq<nat>, m: nat)
    requires ValidPlan(p, gidOf) && InRange(p) && m <= |p.groups|
    ensures Distinct(Calls(p, m))
  {
    if m > 0 {
      var g := m - 1;
      assert GroupInRange(p, g);
      NoPeerTwice(p, gidOf, g);
      NoPeerAgain(p, gidOf, g, m);
    }
  }
}
