/** The pipeline from scanned items to finalized roles (`build_keep_set_materialized`). */
module KeepSet {
  import opened Common
  import opened Grouping
  import opened ScanItems
  import opened GroupLists
  import opened Ranking
  import opened Resolve
  import opened PeerWalk
  import opened Finalize
  import opened RoleAccounting
  import opened KeepOutcome
  import opened GroupCandidates

  /**
   Groups, ranks, materializes and counts. Without a count the caller refused a winner; with one, every group and row is
   explained by what the calls gave, and the books balance: as many uniques as winners delivered and groups kept, one
   role for every item, duplicates counted by the tag they joined with, and those without a tier are the seeds that lost.
   */
  method Build(items: seq<ScanItem>, groupingCtx: GroupingContext, rankCtx: RankContext,
               mat: seq<MatOutcome>, promote: bool, rejects: set<nat>)
    returns (count: Option<nat>, stats: KeepSetStats, rows: seq<Row>, out: GroupingOutcome, calls: seq<nat>,
             ghost gid: seq<nat>, ghost winners: seq<Option<nat>>)
    requires |mat| == |items|
    ensures IsOutcome(items, groupingCtx, out, gid) && |rows| == |items|
    ensures stats.recoverable == |items| && stats.groups == |out.groups|
    ensures stats.unique + stats.duplicates + stats.materializeFailed == |items|
    ensures |winners| == |out.groups| && (count.Some? <==> forall g: nat :: !Turned(winners, rejects, g))
    ensures count.None? ==> exists g: nat ::
              && Turned(winners, rejects, g) && (forall h: nat | h < g :: !Turned(winners, rejects, h))
              && Explained(Plan(items, rankCtx, out.groups, out.boundBy, mat, promote, rejects), gid, g, winners, calls, rows)
    ensures count.Some? ==>
              && Explained(Plan(items, rankCtx, out.groups, out.boundBy, mat, promote, rejects), gid, |out.groups|, winners, calls, rows)
              && Distinct(calls)
              && stats.unique == count.value == stats.groups - stats.groupsDropped == |RowsWith(rows, out.boundBy, Unique, None)|
              && stats.materializeFailed == |RowsWith(rows, out.boundBy, MaterializeFailed, None)|
              && stats.tier1Dups == |RowsWith(rows, out.boundBy, DupOf, Some(ByMessageId))|
              && stats.tier2Dups == |RowsWith(rows, out.boundBy, DupOf, Some(ByContentHash))|
                                    + |RowsWith(rows, out.boundBy, DupOf, Some(ByStrongContentHash))|
              && stats.duplicates - stats.tier1Dups - stats.tier2Dups == |LostSeeds(out.groups, gid, rows)|
  {
    out, gid := Group(items, groupingCtx);
    var decisions, provisional := ResolveGroups(items, rankCtx, out.groups, out.boundBy, gid);
    var plan := Plan(items, rankCtx, out.groups, out.boundBy, mat, promote, rejects);
    var start := seq(|items|, i requires 0 <= i < |items| => Row(decisions[i], false, None));
    var keepSet := new ResolvedKeepSet(plan, start, gid);
    var delivered;
    ghost var upTo;
    count, delivered, calls, upTo := keepSet.Finalize();
    rows := keepSet.rows;
    stats := Summarize(rows, keepSet.groupDropped);
    winners := WinnerList(plan);
    if count.Some? {
      forall i: nat | i < |items|
        ensures out.boundBy[i] == Seed <==> out.groups[gid[i]][0] == i
      {
        SeedTagsMarkFirstMembers(items, groupingCtx, out, gid, i);
      }
      NobodyTurned(plan, |plan.groups|, keepSet.groupDropped);
      CompleteRun(plan, gid, start, rows, keepSet.groupDropped);
      CountsMean(gid, winners, out.boundBy, rows);
    } else {
      StoppedRun(plan, gid, upTo, start, rows, keepSet.groupDropped, keepSet.softSkips, delivered, calls);
    }
  }
}
