/** Lists of groups: what makes one a grouping of the items, and why it is determined by who is grouped with whom. */
module GroupLists {
  import opened Common

  /** The groups partition the items, in scan order within each group and among the first members. */
  ghost predicate IsGrouping(groups: seq<seq<nat>>, gidOf: seq<nat>) {
    && (forall i | 0 <= i < |gidOf| :: gidOf[i] < |groups| && i in groups[gidOf[i]])
    && (forall g | 0 <= g < |groups| :: groups[g] != [] && Ascending(groups[g]))
    && (forall g, k | 0 <= g < |groups| && 0 <= k < |groups[g]| :: groups[g][k] < |gidOf| && gidOf[groups[g][k]] == g)
    && (forall g, h | 0 <= g < h < |groups| :: groups[g][0] < groups[h][0])
  }

  lemma MemberIffGid(groups: seq<seq<nat>>, gidOf: seq<nat>, g: nat, i: nat)
    requires IsGrouping(groups, gidOf) && g < |groups| && i < |gidOf|
    ensures i in groups[g] <==> gidOf[i] == g
  {
    if i in groups[g] {
      MemberGid(groups, gidOf, g, i);
    }
  }

  lemma MemberGid(groups: seq<seq<nat>>, gidOf: seq<nat>, g: nat, i: nat)
    requires IsGrouping(groups, gidOf) && g < |groups| && i in groups[g]
    ensures i < |gidOf| && gidOf[i] == g
  {
  }

  lemma JoinKeepsGrouping(groups: seq<seq<nat>>, gidOf: seq<nat>, g: nat)
    requires IsGrouping(groups, gidOf) && g < |groups|
    ensures IsGrouping(groups[g := groups[g] + [|gidOf|]], gidOf + [g])
    ensures (groups[g] + [|gidOf|])[0] == groups[g][0] < |gidOf|
  {
    var n := |gidOf|;
    var grown := groups[g := groups[g] + [n]];
    assert grown[g][|groups[g]|] == n;
    forall i | 0 <= i < n
      ensures i in grown[(gidOf + [g])[i]]
    {
      var k :| 0 <= k < |groups[gidOf[i]]| && groups[gidOf[i]][k] == i;
      assert grown[gidOf[i]][k] == i;
    }
  }

  lemma SeedKeepsGrouping(groups: seq<seq<nat>>, gidOf: seq<nat>)
    requires IsGrouping(groups, gidOf)
    ensures IsGrouping(groups + [[|gidOf|]], gidOf + [|groups|])
  {
    var grown := groups + [[|gidOf|]];
    forall h | 0 <= h < |groups|
      ensures grown[h] == groups[h]
    {
    }
    assert grown[|groups|] == [|gidOf|];
  }

  lemma AscendingUnique(s: seq<nat>, t: seq<nat>)
    requires Ascending(s) && Ascending(t) && forall x :: x in s <==> x in t
    ensures s == t
  {
    assert s != [] ==> s[0] in t;
    assert t != [] ==> t[0] in s;
    if s != [] {
      assert s[0] in t && t[0] in s;
      assert s[0] == t[0];
      forall x
        ensures x in s[1..] <==> x in t[1..]
      {
        if x in s[1..] {
          assert x in s && x > s[0];
        }
        if x in t[1..] {
          assert x in t && x > t[0];
        }
      }
      AscendingUnique(s[1..], t[1..]);
      assert s == [s[0]] + s[1..] && t == [t[0]] + t[1..];
    }
  }

  // ---- a grouping is fixed by who is grouped with whom ----

  lemma GroupHasSeedAt(groups1: seq<seq<nat>>, gid1: seq<nat>, groups2: seq<seq<nat>>, gid2: seq<nat>, g: nat)
    requires IsGrouping(groups1, gid1) && IsGrouping(groups2, gid2) && |gid1| == |gid2|
    requires g < |groups1| && g <= |groups2| && forall h | 0 <= h < g :: groups1[h] == groups2[h]
    ensures g < |groups2| && groups2[g][0] <= groups1[g][0]
  {
    var s := groups1[g][0];
    MemberGid(groups1, gid1, g, s);
    var h := gid2[s];
    assert s in groups2[h];
    if h < g {
      MemberGid(groups1, gid1, h, s);
    }
  }

  lemma {:induction false} GroupsEqualBelow(groups1: seq<seq<nat>>, gid1: seq<nat>, groups2: seq<seq<nat>>, gid2: seq<nat>, g: nat)
    requires IsGrouping(groups1, gid1) && IsGrouping(groups2, gid2) && |gid1| == |gid2|
    requires forall i, j | 0 <= i < |gid1| && 0 <= j < |gid1| :: gid1[i] == gid1[j] <==> gid2[i] == gid2[j]
    requires g <= |groups1|
    ensures g <= |groups2| && forall h | 0 <= h < g :: groups1[h] == groups2[h]
  {
    if g > 0 {
      var h := g - 1;
      GroupsEqualBelow(groups1, gid1, groups2, gid2, h);
      GroupHasSeedAt(groups1, gid1, groups2, gid2, h);
      GroupHasSeedAt(groups2, gid2, groups1, gid1, h);
      var s := groups1[h][0];
      assert s == groups2[h][0] && gid1[s] == h == gid2[s];
      forall x
        ensures x in groups1[h] <==> x in groups2[h]
      {
        if x in groups1[h] {
          assert gid1[x] == gid1[s];
          assert x in groups2[gid2[x]];
        }
        if x in groups2[h] {
          assert gid2[x] == gid2[s];
          assert x in groups1[gid1[x]];
        }
      }
      AscendingUnique(groups1[h], groups2[h]);
    }
  }

  /** Two groupings of the same items that put the same items together are the same list of lists. */
  lemma GroupingUnique(groups1: seq<seq<nat>>, gid1: seq<nat>, groups2: seq<seq<nat>>, gid2: seq<nat>)
    requires IsGrouping(groups1, gid1) && IsGrouping(groups2, gid2) && |gid1| == |gid2|
    requires forall i, j | 0 <= i < |gid1| && 0 <= j < |gid1| :: gid1[i] == gid1[j] <==> gid2[i] == gid2[j]
    ensures groups1 == groups2 && gid1 == gid2
  {
    GroupsEqualBelow(groups1, gid1, groups2, gid2, |groups1|);
    GroupsEqualBelow(groups2, gid2, groups1, gid1, |groups2|);
    assert groups1 == groups2;
    forall i | 0 <= i < |gid1|
      ensures gid1[i] == gid2[i]
    {
      var k :| 0 <= k < |groups1[gid1[i]]| && groups1[gid1[i]][k] == i;
      assert groups2[gid1[i]][k] == i;
    }
  }
}
