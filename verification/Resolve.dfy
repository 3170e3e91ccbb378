/** Ranking a group and resolving provisional winners (`resolve_groups_with_grouping`). */
module Resolve {
  import opened ByteOrder
  import opened Common
  import opened Grouping
  import opened ScanItems
  import opened Ranking
  import opened GroupLists

  function ItemKey(items: seq<ScanItem>, ctx: RankContext, i: nat): RankKey
    requires i < |items|
  {
    KeyOf(items[i], ctx)
  }

  predicate Indices(items: seq<ScanItem>, group: seq<nat>) {
    forall k | 0 <= k < |group| :: group[k] < |items|
  }

  /** Inserting behind everything that does not rank worse keeps the sort stable. */
  function InsertRanked(items: seq<ScanItem>, ctx: RankContext, ranked: seq<nat>, x: nat): (r: seq<nat>)
    requires Indices(items, ranked) && x < |items|
    ensures Indices(items, r) && |r| == |ranked| + 1
    ensures forall y :: y in r <==> y in ranked || y == x
  {
    if ranked == [] then [x]
    else if Compare(ItemKey(items, ctx, x), ItemKey(items, ctx, ranked[0])) == Less then [x] + ranked
    else
      assert ranked == [ranked[0]] + ranked[1..];
      [ranked[0]] + InsertRanked(items, ctx, ranked[1..], x)
  }

  /** The group in rank order, best first. */
  function RankSort(items: seq<ScanItem>, ctx: RankContext, group: seq<nat>): (r: seq<nat>)
    requires Indices(items, group)
    ensures Indices(items, r) && |r| == |group|
    ensures forall y :: y in r <==> y in group
  {
    if group == [] then []
    else
      assert group == group[..|group| - 1] + [group[|group| - 1]];
      InsertRanked(items, ctx, RankSort(items, ctx, group[..|group| - 1]), group[|group| - 1])
  }

  predicate NoWorse(items: seq<ScanItem>, ctx: RankContext, i: nat, j: nat)
    requires i < |items| && j < |items|
  {
    Compare(ItemKey(items, ctx, i), ItemKey(items, ctx, j)) != Greater
  }

  lemma NoWorseTransitive(items: seq<ScanItem>, ctx: RankContext, i: nat, j: nat, k: nat)
    requires i < |items| && j < |items| && k < |items| && NoWorse(items, ctx, i, j) && NoWorse(items, ctx, j, k)
    ensures NoWorse(items, ctx, i, k)
  {
    var a, b, c := ItemKey(items, ctx, i), ItemKey(items, ctx, j), ItemKey(items, ctx, k);
    CompareEqualIff(a, b);
    CompareEqualIff(b, c);
    if Compare(a, b) == Less && Compare(b, c) == Less {
      CompareTransitive(a, b, c);
    }
  }

  /** Every earlier position ranks no worse than every later one. */
  ghost predicate Ranked(items: seq<ScanItem>, ctx: RankContext, s: seq<nat>)
    requires Indices(items, s)
  {
    forall p, q | 0 <= p < q < |s| :: NoWorse(items, ctx, s[p], s[q])
  }

  lemma {:induction false} InsertKeepsRanked(items: seq<ScanItem>, ctx: RankContext, s: seq<nat>, x: nat)
    requires Indices(items, s) && Ranked(items, ctx, s) && x < |items|
    ensures Ranked(items, ctx, InsertRanked(items, ctx, s, x))
  {
    if s != [] {
      var r := InsertRanked(items, ctx, s, x);
      CompareFlips(ItemKey(items, ctx, x), ItemKey(items, ctx, s[0]));
      if Compare(ItemKey(items, ctx, x), ItemKey(items, ctx, s[0])) == Less {
        forall q | 0 < q < |r|
          ensures NoWorse(items, ctx, x, r[q])
        {
          if q > 1 {
            NoWorseTransitive(items, ctx, x, s[0], s[q - 1]);
          }
        }
      } else {
        var rest := InsertRanked(items, ctx, s[1..], x);
        InsertKeepsRanked(items, ctx, s[1..], x);
        forall q | 0 <= q < |rest|
          ensures NoWorse(items, ctx, s[0], rest[q])
        {
          assert rest[q] in rest;
          if rest[q] != x {
            assert rest[q] in s[1..];
          }
        }
      }
    }
  }

  lemma {:induction false} RankSortRanks(items: seq<ScanItem>, ctx: RankContext, group: seq<nat>)
    requires Indices(items, group)
    ensures Ranked(items, ctx, RankSort(items, ctx, group))
  {
    if group != [] {
      var n := |group| - 1;
      RankSortRanks(items, ctx, group[..n]);
      InsertKeepsRanked(items, ctx, RankSort(items, ctx, group[..n]), group[n]);
    }
  }

  lemma {:induction false} InsertKeepsDistinct(items: seq<ScanItem>, ctx: RankContext, s: seq<nat>, x: nat)
    requires Indices(items, s) && x < |items| && Distinct(s) && x !in s
    ensures Distinct(InsertRanked(items, ctx, s, x))
  {
    if s != [] && Compare(ItemKey(items, ctx, x), ItemKey(items, ctx, s[0])) != Less {
      InsertKeepsDistinct(items, ctx, s[1..], x);
      var rest := InsertRanked(items, ctx, s[1..], x);
      forall k | 0 <= k < |rest|
        ensures rest[k] != s[0]
      {
        assert rest[k] in rest;
      }
    }
  }

  lemma {:induction false} RankSortDistinct(items: seq<ScanItem>, ctx: RankContext, group: seq<nat>)
    requires Indices(items, group) && Distinct(group)
    ensures Distinct(RankSort(items, ctx, group))
  {
    if group != [] {
      var n := |group| - 1;
      RankSortDistinct(items, ctx, group[..n]);
      InsertKeepsDistinct(items, ctx, RankSort(items, ctx, group[..n]), group[n]);
    }
  }

  /** The provisional winner: the best-ranked member. */
  function Winner(items: seq<ScanItem>, ctx: RankContext, group: seq<nat>): (w: nat)
    requires Indices(items, group) && group != []
    ensures w in group
  {
    var ranked := RankSort(items, ctx, group);
    assert ranked[0] in ranked;
    ranked[0]
  }

  predicate SameSource(a: ScanItem, b: ScanItem) {
    a.pathKey == b.pathKey && a.nid == b.nid
  }

  /** (path, nid) tells the members of a group apart. */
  ghost predicate LociDistinct(items: seq<ScanItem>, group: seq<nat>)
    requires Indices(items, group)
  {
    forall i: nat, j: nat {:trigger SameSource(items[i], items[j])} |
      i in group && j in group && i < |items| && j < |items| && SameSource(items[i], items[j]) :: i == j
  }

  lemma WinnerNoWorse(items: seq<ScanItem>, ctx: RankContext, group: seq<nat>, x: nat)
    requires Indices(items, group) && group != [] && x in group && x < |items|
    ensures Winner(items, ctx, group) < |items| && NoWorse(items, ctx, Winner(items, ctx, group), x)
  {
    var ranked := RankSort(items, ctx, group);
    RankSortRanks(items, ctx, group);
    CompareEqualIff(ItemKey(items, ctx, x), ItemKey(items, ctx, x));
    assert x in ranked;
    var p :| 0 <= p < |ranked| && ranked[p] == x;
  }

  /** The winner is the one strict minimum of the group. */
  lemma WinnerIsUniqueMinimum(items: seq<ScanItem>, ctx: RankContext, group: seq<nat>, x: nat)
    requires Indices(items, group) && group != [] && LociDistinct(items, group) && x in group && x < |items|
    ensures var w := Winner(items, ctx, group);
            w < |items| && (x != w ==> Compare(ItemKey(items, ctx, w), ItemKey(items, ctx, x)) == Less)
  {
    WinnerNoWorse(items, ctx, group, x);
    var w := Winner(items, ctx, group);
    CompareEqualIff(ItemKey(items, ctx, w), ItemKey(items, ctx, x));
    if ItemKey(items, ctx, w) == ItemKey(items, ctx, x) {
      assert SameSource(items[w], items[x]);
    }
  }

  /** Member order plays no part in who wins. */
  lemma WinnerIgnoresOrder(items: seq<ScanItem>, ctx: RankContext, group: seq<nat>, other: seq<nat>)
    requires Indices(items, group) && Indices(items, other) && group != [] && other != []
    requires LociDistinct(items, group) && forall x :: x in group <==> x in other
    ensures Winner(items, ctx, group) == Winner(items, ctx, other)
  {
    var v, w := Winner(items, ctx, group), Winner(items, ctx, other);
    assert v in other && w in group;
    WinnerNoWorse(items, ctx, other, v);
    WinnerNoWorse(items, ctx, group, w);
    CompareFlips(ItemKey(items, ctx, v), ItemKey(items, ctx, w));
    CompareEqualIff(ItemKey(items, ctx, v), ItemKey(items, ctx, w));
    if v != w {
      WinnerIsUniqueMinimum(items, ctx, group, w);
    }
  }

  /** A group holding a clean member never gets a degraded provisional winner. */
  lemma CleanMemberMeansCleanWinner(items: seq<ScanItem>, ctx: RankContext, group: seq<nat>, x: nat)
    requires Indices(items, group) && x in group && x < |items| && IsClean(items[x])
    ensures group != [] && Winner(items, ctx, group) < |items| && IsClean(items[Winner(items, ctx, group)])
  {
    WinnerNoWorse(items, ctx, group, x);
    FidelityZeroIffClean(items[x], ctx.fidelityMode);
    FidelityZeroIffClean(items[Winner(items, ctx, group)], ctx.fidelityMode);
  }

  // ---- the resolved state ----

  datatype Role = Unique | DupOf | MaterializeFailed

  datatype Tier = MessageIdTier | ContentHashTier | StrongContentHashTier

  function TierOf(tag: BoundBy): Option<Tier> {
    match tag
    case Seed => None
    case ByMessageId => Some(MessageIdTier)
    case ByContentHash => Some(ContentHashTier)
    case ByStrongContentHash => Some(StrongContentHashTier)
  }

  datatype Decision = Decision(role: Role, winnerOf: Option<nat>, tier: Option<Tier>)

  /** What resolving decides for item idx of a group won by w. */
  function Provisional(idx: nat, w: nat, tag: BoundBy): Decision {
    if idx == w then Decision(Unique, Some(w), None) else Decision(DupOf, Some(w), TierOf(tag))
  }

  method MarkGroup(decisions: seq<Decision>, group: seq<nat>, winner: nat, boundBy: seq<BoundBy>) returns (marked: seq<Decision>)
    requires |decisions| == |boundBy| && forall k | 0 <= k < |group| :: group[k] < |boundBy|
    ensures |marked| == |decisions|
    ensures forall i | 0 <= i < |marked| :: marked[i] == if i in group then Provisional(i, winner, boundBy[i]) else decisions[i]
  {
    marked := decisions;
    for k := 0 to |group|
      invariant |marked| == |decisions|
      invariant forall i | 0 <= i < |marked| ::
                  marked[i] == if i in group[..k] then Provisional(i, winner, boundBy[i]) else decisions[i]
    {
      var idx := group[k];
      assert group[..k + 1] == group[..k] + [idx];
      marked := marked[idx := if idx == winner then Decision(Unique, Some(winner), None)
                              else Decision(DupOf, Some(winner), TierOf(boundBy[idx]))];
    }
    assert group[..|group|] == group;
  }

  /** The rows of the first g groups' members are decided. */
  ghost predicate DecidedBelow(gidOf: seq<nat>, g: nat, decisions: seq<Decision>, winners: seq<nat>, boundBy: seq<BoundBy>) {
    && |decisions| == |gidOf| == |boundBy| && |winners| == g
    && forall i | 0 <= i < |gidOf| && gidOf[i] < g :: decisions[i] == Provisional(i, winners[gidOf[i]], boundBy[i])
  }

  lemma OneMoreDecided(groups: seq<seq<nat>>, gidOf: seq<nat>, g: nat, decisions: seq<Decision>, winners: seq<nat>, boundBy: seq<BoundBy>,
                       marked: seq<Decision>, winner: nat)
    requires IsGrouping(groups, gidOf) && g < |groups| && DecidedBelow(gidOf, g, decisions, winners, boundBy)
    requires |marked| == |decisions|
    requires forall i | 0 <= i < |marked| :: marked[i] == if i in groups[g] then Provisional(i, winner, boundBy[i]) else decisions[i]
    ensures DecidedBelow(gidOf, g + 1, marked, winners + [winner], boundBy)
  {
    forall i: nat | i < |gidOf| && gidOf[i] < g + 1
      ensures marked[i] == Provisional(i, (winners + [winner])[gidOf[i]], boundBy[i])
    {
      MemberIffGid(groups, gidOf, g, i);
    }
  }

  method ResolveGroups(items: seq<ScanItem>, ctx: RankContext, groups: seq<seq<nat>>, boundBy: seq<BoundBy>, ghost gidOf: seq<nat>)
    returns (decisions: seq<Decision>, winners: seq<nat>)
    requires IsGrouping(groups, gidOf) && |gidOf| == |items| == |boundBy|
    ensures |decisions| == |items| && |winners| == |groups|
    ensures forall g | 0 <= g < |groups| :: Indices(items, groups[g]) && winners[g] == Winner(items, ctx, groups[g])
    ensures forall i | 0 <= i < |items| ::
              && decisions[i].winnerOf == Some(winners[gidOf[i]])
              && decisions[i].role == (if i == winners[gidOf[i]] then Unique else DupOf)
              && (decisions[i].tier == Some(MessageIdTier) <==> i != winners[gidOf[i]] && boundBy[i] == ByMessageId)
              && (decisions[i].tier == Some(ContentHashTier) <==> i != winners[gidOf[i]] && boundBy[i] == ByContentHash)
              && (decisions[i].tier == Some(StrongContentHashTier) <==> i != winners[gidOf[i]] && boundBy[i] == ByStrongContentHash)
  {
    decisions := seq(|items|, _ => Decision(Unique, None, None));
    winners := [];
    for g := 0 to |groups|
      invariant DecidedBelow(gidOf, g, decisions, winners, boundBy)
      invariant forall h | 0 <= h < g :: Indices(items, groups[h]) && winners[h] == Winner(items, ctx, groups[h])
    {
      var group := groups[g];
      var ranked := RankSort(items, ctx, group);
      ghost var before := decisions;
      decisions := MarkGroup(decisions, group, ranked[0], boundBy);
      OneMoreDecided(groups, gidOf, g, before, winners, boundBy, decisions, ranked[0]);
      winners := winners + [ranked[0]];
    }
  }

  /** For every loser, `decided_by` names the first rung where it differs from the winner, and the winner is better there. */
  lemma LoserDecidedBy(items: seq<ScanItem>, ctx: RankContext, group: seq<nat>, loser: nat) returns (place: nat)
    requires Indices(items, group) && LociDistinct(items, group) && loser in group && loser < |items|
    requires group != [] && loser != Winner(items, ctx, group)
    ensures Winner(items, ctx, group) < |items|
    ensures var l, w := ItemKey(items, ctx, loser), ItemKey(items, ctx, Winner(items, ctx, group));
            && FirstDifference(l, w, place)
            && CompareComponents(Ladder(w)[place], Ladder(l)[place]) == Less
            && DecidedByRung(l, w, ctx.policy) == RungName(place, ctx.folderClassFirst, ctx.policy)
  {
    WinnerIsUniqueMinimum(items, ctx, group, loser);
    var l, w := ItemKey(items, ctx, loser), ItemKey(items, ctx, Winner(items, ctx, group));
    place := LessDecides(w, l, ctx.policy);
  }
}
