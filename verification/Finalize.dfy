/** Materializing winners with promotion (`finalize_with_materialize_opts`) and counting the roles (`to_keep_set`). */
module Finalize {
  import opened Common
  import opened Grouping
  import opened ScanItems
  import opened Ranking
  import opened GroupLists
  import opened Resolve
  import opened PeerWalk

  /** One item's row of the keep set; the source holds these five columns as parallel vectors. */
  datatype Row = Row(decision: Decision, promoted: bool, reason: Option<PromoteReason>)

  /** An incomplete peer that was skipped, and the winner it was skipped for. */
  datatype SoftSkip = SoftSkip(peer: nat, winner: nat)

  /** The row of item idx after its group's walk. */
  function FinalRow(walk: Walk, idx: nat, tag: BoundBy): Row {
    match walk.winner
    case None => Row(Decision(MaterializeFailed, None, None), false, None)
    case Some(w) =>
      if idx in walk.failed then Row(Decision(MaterializeFailed, Some(w), None), false, None)
      else if idx == w then Row(Decision(Unique, Some(w), None), walk.promoted, walk.reason)
      else Row(Decision(DupOf, Some(w), TierOf(tag)), false, None)
  }

  function SkipsOf(walk: Walk): seq<SoftSkip> {
    match walk.winner
    case None => []
    case Some(w) => seq(|walk.skipped|, k requires 0 <= k < |walk.skipped| => SoftSkip(walk.skipped[k], w))
  }

  /** Everything finalization is given. */
  datatype Plan = Plan(items: seq<ScanItem>, ctx: RankContext, groups: seq<seq<nat>>, boundBy: seq<BoundBy>,
                       mat: seq<MatOutcome>, promote: bool, rejects: set<nat>)

  ghost predicate ValidPlan(p: Plan, gidOf: seq<nat>) {
    IsGrouping(p.groups, gidOf) && |gidOf| == |p.items| == |p.boundBy| == |p.mat|
  }

  predicate GroupInRange(p: Plan, g: nat) {
    && g < |p.groups| && |p.mat| == |p.items|
    && forall k | 0 <= k < |p.groups[g]| :: p.groups[g][k] < |p.items|
  }

  /** The walk of group g: its peers in rank order. */
  function WalkOf(p: Plan, g: nat): Walk
    requires GroupInRange(p, g)
  {
    Pick(p.mat, p.promote, RankSort(p.items, p.ctx, p.groups[g]))
  }

  predicate InRange(p: Plan) {
    forall g: nat {:trigger GroupInRange(p, g)} | g < |p.groups| :: GroupInRange(p, g)
  }

  lemma PlanInRange(p: Plan, gidOf: seq<nat>)
    requires ValidPlan(p, gidOf)
    ensures InRange(p)
  {
  }

  /** Group g has been walked, its winner was taken, and its dropped flag is set. */
  predicate Walked(p: Plan, dropped: seq<bool>, g: nat)
    requires GroupInRange(p, g) && g < |dropped|
  {
    !Refused(p, g) && dropped[g] == WalkOf(p, g).winner.None?
  }

  predicate RowSettled(p: Plan, gidOf: seq<nat>, m: nat, before: seq<Row>, rows: seq<Row>, i: nat)
    requires InRange(p) && |gidOf| == |before| == |rows| == |p.boundBy| && i < |rows|
    requires gidOf[i] < |p.groups|
  {
    assert GroupInRange(p, gidOf[i]);
    rows[i] == if gidOf[i] < m then FinalRow(WalkOf(p, gidOf[i]), i, p.boundBy[i]) else before[i]
  }

  /** The rows when the first m groups are settled. */
  ghost predicate SettledTo(p: Plan, gidOf: seq<nat>, m: nat, before: seq<Row>, rows: seq<Row>)
    requires ValidPlan(p, gidOf) && InRange(p) && |before| == |rows| == |p.items|
  {
    forall i: nat {:trigger RowSettled(p, gidOf, m, before, rows, i)} | i < |rows| :: RowSettled(p, gidOf, m, before, rows, i)
  }

  lemma SettleOneMore(p: Plan, gidOf: seq<nat>, m: nat, before: seq<Row>, rows: seq<Row>, settled: seq<Row>)
    requires ValidPlan(p, gidOf) && InRange(p) && |before| == |rows| == |settled| == |p.items| && m < |p.groups|
    requires SettledTo(p, gidOf, m, before, rows)
    requires forall i | 0 <= i < |settled| ::
               settled[i] == if gidOf[i] == m then FinalRow(WalkOf(p, m), i, p.boundBy[i]) else rows[i]
    ensures SettledTo(p, gidOf, m + 1, before, settled)
  {
    var next := m + 1;
    forall i: nat | i < |settled|
      ensures RowSettled(p, gidOf, next, before, settled, i)
    {
      assert RowSettled(p, gidOf, m, before, rows, i);
    }
  }

  /** Whether the caller refuses the winner of group g, which ends the run with an error. */
  predicate Refused(p: Plan, g: nat)
    requires GroupInRange(p, g)
  {
    WalkOf(p, g).winner.Some? && WalkOf(p, g).winner.value in p.rejects
  }

  /** The winner of every group, if it has one. */
  function WinnerList(p: Plan): (r: seq<Option<nat>>)
    requires InRange(p)
    ensures |r| == |p.groups| && forall g | 0 <= g < |r| :: GroupInRange(p, g) && r[g] == WalkOf(p, g).winner
  {
    assert forall g: nat | g < |p.groups| :: GroupInRange(p, g);
    seq(|p.groups|, g requires 0 <= g < |p.groups| && GroupInRange(p, g) => WalkOf(p, g).winner)
  }

  /** The winners among the first m groups, in group order. */
  function Delivered(winners: seq<Option<nat>>, m: nat): seq<nat>
    requires m <= |winners|
  {
    if m == 0 then []
    else Delivered(winners, m - 1) + (if winners[m - 1].Some? then [winners[m - 1].value] else [])
  }

  /** The peers materialized for the first m groups. */
  function Calls(p: Plan, m: nat): seq<nat>
    requires m <= |p.groups| && InRange(p)
  {
    if m == 0 then [] else Calls(p, m - 1) + WalkOf(p, m - 1).calls
  }

  function Skips(p: Plan, m: nat): seq<SoftSkip>
    requires m <= |p.groups| && InRange(p)
  {
    if m == 0 then [] else Skips(p, m - 1) + SkipsOf(WalkOf(p, m - 1))
  }

  /** The run has dealt with the first m groups and nothing else. */
  ghost predicate Progress(p: Plan, gidOf: seq<nat>, m: nat, before: seq<Row>, rows: seq<Row>, dropped: seq<bool>,
                           skips: seq<SoftSkip>, delivered: seq<nat>, calls: seq<nat>)
    requires ValidPlan(p, gidOf) && InRange(p) && |before| == |rows| == |p.items| && |dropped| == |p.groups| && m <= |p.groups|
  {
    && delivered == Delivered(WinnerList(p), m) && skips == Skips(p, m) && calls == Calls(p, m)
    && SettledTo(p, gidOf, m, before, rows)
    && forall g: nat {:trigger Walked(p, dropped, g)} | g < m :: Walked(p, dropped, g)
  }

  lemma ProgressNone(p: Plan, gidOf: seq<nat>, before: seq<Row>, dropped: seq<bool>)
    requires ValidPlan(p, gidOf) && InRange(p) && |before| == |p.items| && |dropped| == |p.groups|
    ensures Progress(p, gidOf, 0, before, before, dropped, [], [], [])
  {
    forall i: nat | i < |before|
      ensures RowSettled(p, gidOf, 0, before, before, i)
    {
    }
  }

  /** The caller refused the winner of group m: that group was walked, and nothing after it was touched. */
  ghost predicate Stopped(p: Plan, gidOf: seq<nat>, m: nat, before: seq<Row>, rows: seq<Row>, dropped: seq<bool>,
                          skips: seq<SoftSkip>, delivered: seq<nat>, calls: seq<nat>)
    requires ValidPlan(p, gidOf) && InRange(p) && |before| == |rows| == |p.items| && |dropped| == |p.groups|
  {
    && m < |p.groups| && GroupInRange(p, m) && Refused(p, m)
    && Progress(p, gidOf, m, before, rows, dropped, Skips(p, m), delivered, Calls(p, m))
    && skips == Skips(p, m) + SkipsOf(WalkOf(p, m)) && calls == Calls(p, m) + WalkOf(p, m).calls
  }

  lemma ProgressOne(p: Plan, gidOf: seq<nat>, m: nat, before: seq<Row>, rows: seq<Row>, dropped: seq<bool>,
                    skips: seq<SoftSkip>, delivered: seq<nat>, calls: seq<nat>, settled: seq<Row>)
    requires ValidPlan(p, gidOf) && InRange(p) && |before| == |rows| == |settled| == |p.items| && |dropped| == |p.groups|
    requires m < |p.groups| && Progress(p, gidOf, m, before, rows, dropped, skips, delivered, calls) && !Refused(p, m)
    requires forall i | 0 <= i < |settled| ::
               settled[i] == if gidOf[i] == m then FinalRow(WalkOf(p, m), i, p.boundBy[i]) else rows[i]
    ensures var walk := WalkOf(p, m);
            Progress(p, gidOf, m + 1, before, settled, dropped[m := walk.winner.None?], skips + SkipsOf(walk),
                     delivered + (if walk.winner.Some? then [walk.winner.value] else []), calls + walk.calls)
  {
    SettleOneMore(p, gidOf, m, before, rows, settled);
    WalkedOneMore(p, m, dropped);
  }

  lemma WalkedOneMore(p: Plan, m: nat, dropped: seq<bool>)
    requires InRange(p) && |dropped| == |p.groups| && m < |p.groups| && GroupInRange(p, m) && !Refused(p, m)
    requires forall g: nat {:trigger Walked(p, dropped, g)} | g < m :: GroupInRange(p, g) && Walked(p, dropped, g)
    ensures var later := dropped[m := WalkOf(p, m).winner.None?];
            forall g: nat {:trigger Walked(p, later, g)} | g < m + 1 :: GroupInRange(p, g) && Walked(p, later, g)
  {
    var later := dropped[m := WalkOf(p, m).winner.None?];
    forall g: nat | g < m + 1
      ensures GroupInRange(p, g) && Walked(p, later, g)
    {
      assert GroupInRange(p, g);
      if g < m {
        assert Walked(p, dropped, g);
      }
    }
  }

  /** The keep set while it is being finalized. */
  class ResolvedKeepSet {
    const plan: Plan
    ghost const gidOf: seq<nat>
    var rows: seq<Row>
    var groupDropped: seq<bool>
    var softSkips: seq<SoftSkip>

    ghost predicate Valid()
      reads this
    {
      |rows| == |plan.items| && |groupDropped| == |plan.groups|
    }

    constructor (plan: Plan, rows: seq<Row>, ghost gidOf: seq<nat>)
      requires ValidPlan(plan, gidOf) && |rows| == |plan.items|
      ensures Valid() && this.plan == plan && this.gidOf == gidOf && this.rows == rows
      ensures groupDropped == seq(|plan.groups|, _ => false)
    {
      this.plan, this.gidOf, this.rows := plan, gidOf, rows;
      groupDropped := seq(|plan.groups|, _ => false);
      softSkips := [];
    }

    /** Rewrites the rows of one group's members and nothing else. */
    method SettleGroup(g: nat, walk: Walk)
      requires ValidPlan(plan, gidOf) && Valid() && g < |plan.groups|
      modifies this`rows, this`groupDropped
      ensures Valid()
      ensures forall i | 0 <= i < |rows| ::
                rows[i] == if gidOf[i] == g then FinalRow(walk, i, plan.boundBy[i]) else old(rows[i])
      ensures groupDropped == old(groupDropped)[g := walk.winner.None?]
    {
      var group := plan.groups[g];
      groupDropped := groupDropped[g := walk.winner.None?];
      for k := 0 to |group|
        invariant Valid() && groupDropped == old(groupDropped)[g := walk.winner.None?]
        invariant forall i | 0 <= i < |rows| ::
                    rows[i] == if i in group[..k] then FinalRow(walk, i, plan.boundBy[i]) else old(rows[i])
      {
        var idx := group[k];
        assert group[..k + 1] == group[..k] + [idx];
        if walk.winner.None? {
          rows := rows[idx := Row(Decision(MaterializeFailed, None, None), false, None)];
        } else if idx in walk.failed {
          rows := rows[idx := Row(Decision(MaterializeFailed, walk.winner, None), false, None)];
        } else if idx == walk.winner.value {
          rows := rows[idx := Row(Decision(Unique, walk.winner, None), walk.promoted, walk.reason)];
        } else {
          rows := rows[idx := Row(Decision(DupOf, walk.winner, TierOf(plan.boundBy[idx])), false, None)];
        }
      }
      assert group[..|group|] == group;
      forall i | 0 <= i < |rows|
        ensures i in group <==> gidOf[i] == g
      {
        MemberIffGid(plan.groups, gidOf, g, i);
      }
    }

    /** One group: walk its peers, record the skipped ones, hand over the winner, settle the rows. */
    method FinalizeGroup(g: nat) returns (walk: Walk, refused: bool)
      requires ValidPlan(plan, gidOf) && Valid() && GroupInRange(plan, g)
      modifies this
      ensures Valid() && walk == WalkOf(plan, g) && refused == Refused(plan, g)
      ensures softSkips == old(softSkips) + SkipsOf(walk)
      ensures refused ==> rows == old(rows) && groupDropped == old(groupDropped)
      ensures !refused ==> groupDropped == old(groupDropped)[g := walk.winner.None?]
      ensures !refused ==> forall i | 0 <= i < |rows| ::
                rows[i] == if gidOf[i] == g then FinalRow(walk, i, plan.boundBy[i]) else old(rows[i])
    {
      var ranked := RankSort(plan.items, plan.ctx, plan.groups[g]);
      walk := WalkPeers(plan.mat, plan.promote, ranked);
      softSkips := softSkips + SkipsOf(walk);
      refused := walk.winner.Some? && walk.winner.value in plan.rejects;
      if !refused {
        SettleGroup(g, walk);
      }
    }

    /** The first m groups are dealt with, and nothing else. */
    ghost predicate Reached(m: nat, start: seq<Row>, delivered: seq<nat>, calls: seq<nat>)
      requires ValidPlan(plan, gidOf) && InRange(plan) && m <= |plan.groups| && |start| == |plan.items|
      reads this
    {
      Valid() && Progress(plan, gidOf, m, start, rows, groupDropped, softSkips, delivered, calls)
    }

    /** The caller refused the winner of group m. */
    ghost predicate StoppedAt(m: nat, start: seq<Row>, delivered: seq<nat>, calls: seq<nat>)
      requires ValidPlan(plan, gidOf) && InRange(plan) && |start| == |plan.items|
      reads this
    {
      Valid() && Stopped(plan, gidOf, m, start, rows, groupDropped, softSkips, delivered, calls)
    }

    /** One turn of the loop, seen from the whole run. */
    method Advance(g: nat, delivered: seq<nat>, calls: seq<nat>, ghost start: seq<Row>, ghost next: nat)
      returns (refused: bool, newDelivered: seq<nat>, newCalls: seq<nat>)
      requires ValidPlan(plan, gidOf) && InRange(plan) && next == g + 1 <= |plan.groups| && |start| == |plan.items|
      requires Reached(g, start, delivered, calls)
      modifies this
      ensures if refused then StoppedAt(g, start, newDelivered, newCalls) else Reached(next, start, newDelivered, newCalls)
    {
      ghost var before, flags, skips := rows, groupDropped, softSkips;
      assert GroupInRange(plan, g);
      var walk;
      walk, refused := FinalizeGroup(g);
      newDelivered, newCalls := delivered, calls + walk.calls;
      if !refused {
        newDelivered := delivered + (if walk.winner.Some? then [walk.winner.value] else []);
        ProgressOne(plan, gidOf, g, start, before, flags, skips, delivered, calls, rows);
      }
    }

    /**
     Walks every group in turn. The count is None when the caller refuses a winner: then the groups before that
     one are settled and it and the later ones are as they were.
     */
    method Finalize() returns (count: Option<nat>, delivered: seq<nat>, calls: seq<nat>, ghost upTo: nat)
      requires ValidPlan(plan, gidOf) && Valid()
      modifies this
      ensures Valid() && InRange(plan) && upTo <= |plan.groups|
      ensures count.Some? <==> upTo == |plan.groups|
      ensures if count.Some? then count.value == |delivered| && Reached(upTo, old(rows), delivered, calls)
              else StoppedAt(upTo, old(rows), delivered, calls)
    {
      delivered, calls, upTo := [], [], 0;
      Begin();
      ghost var start := rows;
      for g := 0 to |plan.groups|
        invariant upTo == g && Reached(g, start, delivered, calls)
      {
        var refused;
        refused, delivered, calls := Advance(g, delivered, calls, start, g + 1);
        if refused {
          return None, delivered, calls, g;
        }
        upTo := g + 1;
      }
      count := Some(|delivered|);
    }

    /** Forgets what an earlier run skipped. */
    method Begin()
      requires ValidPlan(plan, gidOf) && Valid()
      modifies this`softSkips
      ensures InRange(plan) && Reached(0, rows, [], [])
    {
      softSkips := [];
      PlanInRange(plan, gidOf);
      ProgressNone(plan, gidOf, rows, groupDropped);
    }
  }
}
