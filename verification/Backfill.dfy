/** Second half of the backfill pass: rebuilding the groups from the forest, and batch grouping as a whole. */
module Backfill {
  import opened Common
  import opened Grouping
  import opened ScanItems
  import opened GroupLists
  import opened UnionFind
  import opened Components
  import opened BackfillLinks

  predicate NonDescending(s: seq<nat>) {
    forall i, j :: 0 <= i < j < |s| ==> s[i] <= s[j]
  }

  function InsertSorted(s: seq<nat>, x: nat): (r: seq<nat>)
    ensures |r| == |s| + 1
    ensures forall y :: y in r <==> y in s || y == x
  {
    if s == [] || x <= s[0] then [x] + s
    else
      assert s == [s[0]] + s[1..];
      [s[0]] + InsertSorted(s[1..], x)
  }

  lemma {:induction false} InsertKeepsOrder(s: seq<nat>, x: nat)
    requires NonDescending(s)
    ensures NonDescending(InsertSorted(s, x))
  {
    if s != [] && x > s[0] {
      var rest := InsertSorted(s[1..], x);
      InsertKeepsOrder(s[1..], x);
      forall k | 0 <= k < |rest|
        ensures s[0] <= rest[k]
      {
        assert rest[k] in rest;
      }
    }
  }

  lemma {:induction false} InsertKeepsAscending(s: seq<nat>, x: nat)
    requires Ascending(s) && x !in s
    ensures Ascending(InsertSorted(s, x))
  {
    if s != [] && x > s[0] {
      var rest := InsertSorted(s[1..], x);
      InsertKeepsAscending(s[1..], x);
      forall k | 0 <= k < |rest|
        ensures s[0] < rest[k]
      {
        assert rest[k] in rest;
      }
    }
  }

  function SortNats(s: seq<nat>): (r: seq<nat>)
    ensures |r| == |s|
    ensures forall y :: y in r <==> y in s
  {
    if s == [] then []
    else
      assert s == s[..|s| - 1] + [s[|s| - 1]];
      InsertSorted(SortNats(s[..|s| - 1]), s[|s| - 1])
  }

  /** Sorting sorts, and distinct elements come out strictly ascending. */
  lemma {:induction false} SortNatsSorts(s: seq<nat>)
    ensures NonDescending(SortNats(s))
    ensures Distinct(s) ==> Ascending(SortNats(s))
  {
    if s != [] {
      var n := |s| - 1;
      SortNatsSorts(s[..n]);
      InsertKeepsOrder(SortNats(s[..n]), s[n]);
      if Distinct(s) {
        assert s[n] !in s[..n];
        InsertKeepsAscending(SortNats(s[..n]), s[n]);
      }
    }
  }

  // ---- rebuilding the groups ----

  /** The loop's state after the first m old groups; firsts holds the old group that opened each new one. */
  datatype Partial = Partial(rootToNew: map<nat, nat>, newGroups: seq<seq<nat>>, firsts: seq<nat>)

  /** A representative's new group was opened by a group of its class. */
  ghost predicate RootOk(root: seq<nat>, st: Partial, r: nat)
    requires r in st.rootToNew
  {
    var n := st.rootToNew[r];
    n < |st.newGroups| == |st.firsts| && st.firsts[n] < |root| && root[st.firsts[n]] == r
  }

  ghost predicate FirstOk(root: seq<nat>, m: nat, st: Partial, n: nat)
    requires n < |st.firsts|
  {
    var f := st.firsts[n];
    f < m && f < |root| && root[f] in st.rootToNew && st.rootToNew[root[f]] == n
  }

  /** Old group h has gone into a new group that was opened no later. */
  ghost predicate Absorbs(root: seq<nat>, st: Partial, h: nat)
    requires h < |root|
  {
    && root[h] in st.rootToNew && st.rootToNew[root[h]] < |st.firsts| == |st.newGroups|
    && st.firsts[st.rootToNew[root[h]]] <= h
  }

  /** The members of new group n belong to old groups of its class. */
  ghost predicate MembersOk(gidOf: seq<nat>, root: seq<nat>, m: nat, st: Partial, n: nat)
    requires n < |st.newGroups|
  {
    && st.newGroups[n] != [] && Distinct(st.newGroups[n])
    && forall k | 0 <= k < |st.newGroups[n]| ::
         var i := st.newGroups[n][k];
         i < |gidOf| && gidOf[i] < m && gidOf[i] < |root| && root[gidOf[i]] in st.rootToNew && st.rootToNew[root[gidOf[i]]] == n
  }

  ghost predicate ItemPlaced(gidOf: seq<nat>, root: seq<nat>, m: nat, st: Partial, i: nat)
    requires i < |gidOf|
  {
    gidOf[i] < m && gidOf[i] < |root| ==>
      && root[gidOf[i]] in st.rootToNew && st.rootToNew[root[gidOf[i]]] < |st.newGroups|
      && i in st.newGroups[st.rootToNew[root[gidOf[i]]]]
  }

  ghost predicate Rebuilding(gidOf: seq<nat>, root: seq<nat>, m: nat, st: Partial)
    requires m <= |root|
  {
    && st.rootToNew.Keys == Images(root, m) && |st.rootToNew| == |st.newGroups| == |st.firsts|
    && Ascending(st.firsts)
    && (forall r: nat {:trigger RootOk(root, st, r)} | r in st.rootToNew :: RootOk(root, st, r))
    && (forall n: nat {:trigger FirstOk(root, m, st, n)} | n < |st.firsts| :: FirstOk(root, m, st, n))
    && (forall h: nat {:trigger Absorbs(root, st, h)} | h < m :: Absorbs(root, st, h))
    && (forall n: nat {:trigger MembersOk(gidOf, root, m, st, n)} | n < |st.newGroups| :: MembersOk(gidOf, root, m, st, n))
    && (forall i: nat {:trigger ItemPlaced(gidOf, root, m, st, i)} | i < |gidOf| :: ItemPlaced(gidOf, root, m, st, i))
  }

  function Opened(st: Partial, r: nat, m: nat, members: seq<nat>): Partial {
    Partial(st.rootToNew[r := |st.newGroups|], st.newGroups + [members], st.firsts + [m])
  }

  function Extended(st: Partial, n: nat, members: seq<nat>): Partial
    requires n < |st.newGroups|
  {
    st.(newGroups := st.newGroups[n := st.newGroups[n] + members])
  }

  lemma OpenKeepsRoots(gidOf: seq<nat>, root: seq<nat>, m: nat, st: Partial, members: seq<nat>, c: Partial, next: nat)
    requires m < |root| && next == m + 1 && Rebuilding(gidOf, root, m, st)
    requires root[m] !in st.rootToNew && c == Opened(st, root[m], m, members)
    ensures forall r: nat {:trigger RootOk(root, c, r)} | r in c.rootToNew :: RootOk(root, c, r)
    ensures forall n: nat {:trigger FirstOk(root, next, c, n)} | n < |c.firsts| :: FirstOk(root, next, c, n)
    ensures forall h: nat {:trigger Absorbs(root, c, h)} | h < next :: Absorbs(root, c, h)
  {
    forall r: nat | r in c.rootToNew
      ensures RootOk(root, c, r)
    {
      if r != root[m] {
        assert RootOk(root, st, r);
      }
    }
    forall n: nat | n < |c.firsts|
      ensures FirstOk(root, next, c, n)
    {
      if n < |st.firsts| {
        assert FirstOk(root, m, st, n);
      }
    }
    forall h: nat | h < next
      ensures Absorbs(root, c, h)
    {
      if h < m {
        assert Absorbs(root, st, h);
      }
    }
  }

  lemma OpenKeepsRebuilding(groups: seq<seq<nat>>, gidOf: seq<nat>, root: seq<nat>, m: nat, st: Partial)
    requires IsGrouping(groups, gidOf) && |root| == |groups| && m < |root|
    requires Rebuilding(gidOf, root, m, st) && root[m] !in st.rootToNew
    ensures Rebuilding(gidOf, root, m + 1, Opened(st, root[m], m, groups[m]))
  {
    var next := m + 1;
    var c := Opened(st, root[m], m, groups[m]);
    assert Images(root, next) == Images(root, m) + {root[m]};
    forall n | 0 <= n < |st.firsts|
      ensures c.firsts[n] == st.firsts[n] < m
    {
      assert FirstOk(root, m, st, n);
    }
    OpenKeepsRoots(gidOf, root, m, st, groups[m], c, next);
    OpenKeepsMembers(groups, gidOf, root, m, st, c, next);
  }

  lemma OpenKeepsMembers(groups: seq<seq<nat>>, gidOf: seq<nat>, root: seq<nat>, m: nat, st: Partial, c: Partial, next: nat)
    requires IsGrouping(groups, gidOf) && |root| == |groups| && m < |root| && next == m + 1
    requires Rebuilding(gidOf, root, m, st) && root[m] !in st.rootToNew && c == Opened(st, root[m], m, groups[m])
    ensures forall n: nat {:trigger MembersOk(gidOf, root, next, c, n)} | n < |c.newGroups| :: MembersOk(gidOf, root, next, c, n)
    ensures forall i: nat {:trigger ItemPlaced(gidOf, root, next, c, i)} | i < |gidOf| :: ItemPlaced(gidOf, root, next, c, i)
  {
    forall n: nat | n < |c.newGroups|
      ensures MembersOk(gidOf, root, next, c, n)
    {
      if n < |st.newGroups| {
        assert MembersOk(gidOf, root, m, st, n);
      }
    }
    forall i: nat | i < |gidOf|
      ensures ItemPlaced(gidOf, root, next, c, i)
    {
      assert ItemPlaced(gidOf, root, m, st, i);
    }
  }

  lemma ExtendKeepsRebuilding(groups: seq<seq<nat>>, gidOf: seq<nat>, root: seq<nat>, m: nat, st: Partial)
    requires IsGrouping(groups, gidOf) && |root| == |groups| && m < |root|
    requires Rebuilding(gidOf, root, m, st) && root[m] in st.rootToNew
    ensures st.rootToNew[root[m]] < |st.newGroups|
    ensures Rebuilding(gidOf, root, m + 1, Extended(st, st.rootToNew[root[m]], groups[m]))
  {
    assert RootOk(root, st, root[m]);
    var t := st.rootToNew[root[m]];
    var c := Extended(st, t, groups[m]);
    var next := m + 1;
    assert Images(root, next) == Images(root, m) + {root[m]};
    forall r: nat | r in c.rootToNew
      ensures RootOk(root, c, r)
    {
      assert RootOk(root, st, r);
    }
    forall n: nat | n < |c.firsts|
      ensures FirstOk(root, next, c, n)
    {
      assert FirstOk(root, m, st, n);
    }
    forall h: nat | h < next
      ensures Absorbs(root, c, h)
    {
      if h < m {
        assert Absorbs(root, st, h);
      } else {
        assert FirstOk(root, m, st, t);
      }
    }
    forall n: nat | n < |c.newGroups|
      ensures MembersOk(gidOf, root, next, c, n)
    {
      assert MembersOk(gidOf, root, m, st, n);
    }
    forall i: nat | i < |gidOf|
      ensures ItemPlaced(gidOf, root, next, c, i)
    {
      assert ItemPlaced(gidOf, root, m, st, i);
    }
  }

  function NewGids(gidOf: seq<nat>, root: seq<nat>, rootToNew: map<nat, nat>): (r: seq<nat>)
    requires forall i | 0 <= i < |gidOf| :: gidOf[i] < |root| && root[gidOf[i]] in rootToNew
    ensures |r| == |gidOf| && forall i | 0 <= i < |gidOf| :: r[i] == rootToNew[root[gidOf[i]]]
  {
    seq(|gidOf|, i requires 0 <= i < |gidOf| => rootToNew[root[gidOf[i]]])
  }

  lemma AllPlaced(groups: seq<seq<nat>>, gidOf: seq<nat>, root: seq<nat>, st: Partial, i: nat)
    requires IsGrouping(groups, gidOf) && |root| == |groups| && Rebuilding(gidOf, root, |root|, st) && i < |gidOf|
    ensures gidOf[i] < |root| && root[gidOf[i]] in st.rootToNew && st.rootToNew[root[gidOf[i]]] < |st.newGroups|
    ensures i in st.newGroups[st.rootToNew[root[gidOf[i]]]]
  {
    assert ItemPlaced(gidOf, root, |root|, st, i);
  }

  /** A new group's least member is the seed of the old group that opened it. */
  lemma SeedOfNewGroup(groups: seq<seq<nat>>, gidOf: seq<nat>, root: seq<nat>, st: Partial, n: nat)
    requires IsGrouping(groups, gidOf) && |root| == |groups| && Rebuilding(gidOf, root, |root|, st) && n < |st.newGroups|
    ensures SortNats(st.newGroups[n]) != [] && Ascending(SortNats(st.newGroups[n]))
    ensures st.firsts[n] < |groups| && SortNats(st.newGroups[n])[0] == groups[st.firsts[n]][0]
  {
    var g, f := st.newGroups[n], st.firsts[n];
    assert FirstOk(root, |root|, st, n) && MembersOk(gidOf, root, |root|, st, n);
    SortNatsSorts(g);
    var s := SortNats(g);
    var seed := groups[f][0];
    MemberGid(groups, gidOf, f, seed);
    AllPlaced(groups, gidOf, root, st, seed);
    assert seed in s;
    assert s[0] in g;
    var h := gidOf[s[0]];
    assert Absorbs(root, st, h);
    assert s[0] in groups[h];
    assert groups[f][0] <= groups[h][0] <= s[0];
  }

  /** Same new group exactly when same representative. */
  lemma SameNewGroup(gidOf: seq<nat>, root: seq<nat>, st: Partial, a: nat, b: nat)
    requires Rebuilding(gidOf, root, |root|, st) && a < |root| && b < |root|
    ensures root[a] in st.rootToNew && root[b] in st.rootToNew
    ensures st.rootToNew[root[a]] == st.rootToNew[root[b]] <==> root[a] == root[b]
  {
    assert Absorbs(root, st, a) && Absorbs(root, st, b);
    assert RootOk(root, st, root[a]) && RootOk(root, st, root[b]);
  }

  lemma SortedNewGroups(groups: seq<seq<nat>>, gidOf: seq<nat>, root: seq<nat>, st: Partial, sorted: seq<seq<nat>>, newGid: seq<nat>)
    requires IsGrouping(groups, gidOf) && |root| == |groups| && Rebuilding(gidOf, root, |root|, st)
    requires |sorted| == |st.newGroups| && forall n | 0 <= n < |sorted| :: sorted[n] == SortNats(st.newGroups[n])
    requires |newGid| == |gidOf|
    requires forall i | 0 <= i < |gidOf| :: gidOf[i] < |root| && root[gidOf[i]] in st.rootToNew && newGid[i] == st.rootToNew[root[gidOf[i]]]
    ensures IsGrouping(sorted, newGid)
  {
    forall i | 0 <= i < |newGid|
      ensures newGid[i] < |sorted| && i in sorted[newGid[i]]
    {
      AllPlaced(groups, gidOf, root, st, i);
    }
    forall n | 0 <= n < |sorted|
      ensures sorted[n] != [] && Ascending(sorted[n])
    {
      SeedOfNewGroup(groups, gidOf, root, st, n);
    }
    forall n, k | 0 <= n < |sorted| && 0 <= k < |sorted[n]|
      ensures sorted[n][k] < |newGid| && newGid[sorted[n][k]] == n
    {
      assert MembersOk(gidOf, root, |root|, st, n);
      assert sorted[n][k] in st.newGroups[n];
    }
    forall n, o | 0 <= n < o < |sorted|
      ensures sorted[n][0] < sorted[o][0]
    {
      SeedOfNewGroup(groups, gidOf, root, st, n);
      SeedOfNewGroup(groups, gidOf, root, st, o);
    }
  }

  /** The old groups, taken in order, go to the new group of their representative. */
  method Regroup(parent: array<nat>, groups: seq<seq<nat>>, ghost gidOf: seq<nat>, ghost root: seq<nat>, ghost height: seq<nat>)
    returns (sorted: seq<seq<nat>>, ghost newGid: seq<nat>)
    requires IsGrouping(groups, gidOf) && parent.Length == |groups| && Forest(parent[..], root, height)
    modifies parent
    ensures IsGrouping(sorted, newGid) && |newGid| == |gidOf|
    ensures forall i, j | 0 <= i < |gidOf| && 0 <= j < |gidOf| ::
              gidOf[i] < |root| && gidOf[j] < |root| && (newGid[i] == newGid[j] <==> root[gidOf[i]] == root[gidOf[j]])
    ensures |sorted| == |Images(root, |root|)|
  {
    var rootToNew: map<nat, nat> := map[];
    var newGroups: seq<seq<nat>> := [];
    ghost var st := Partial(map[], [], []);
    for oldGid := 0 to |groups|
      invariant |root| == |groups| && Forest(parent[..], root, height)
      invariant Rebuilding(gidOf, root, oldGid, st) && rootToNew == st.rootToNew && newGroups == st.newGroups
    {
      var r := Find(parent, oldGid, root, height);
      if r in rootToNew {
        ExtendKeepsRebuilding(groups, gidOf, root, oldGid, st);
        var n := rootToNew[r];
        newGroups := newGroups[n := newGroups[n] + groups[oldGid]];
        st := Extended(st, n, groups[oldGid]);
      } else {
        OpenKeepsRebuilding(groups, gidOf, root, oldGid, st);
        rootToNew := rootToNew[r := |newGroups|];
        newGroups := newGroups + [groups[oldGid]];
        st := Opened(st, r, oldGid, groups[oldGid]);
      }
    }
    forall i: nat | i < |gidOf|
      ensures gidOf[i] < |root| && root[gidOf[i]] in st.rootToNew
    {
      AllPlaced(groups, gidOf, root, st, i);
    }
    newGid := NewGids(gidOf, root, st.rootToNew);
    sorted := [];
    for n := 0 to |newGroups|
      invariant |sorted| == n && forall k | 0 <= k < n :: sorted[k] == SortNats(newGroups[k])
    {
      sorted := sorted + [SortNats(newGroups[n])];
    }
    SortedNewGroups(groups, gidOf, root, st, sorted, newGid);
    forall i, j | 0 <= i < |gidOf| && 0 <= j < |gidOf|
      ensures newGid[i] == newGid[j] <==> root[gidOf[i]] == root[gidOf[j]]
    {
      SameNewGroup(gidOf, root, st, gidOf[i], gidOf[j]);
    }
  }

  // ---- provenance ----

  /** The tag of item idx in a group seeded by item seed: only former seeds are reclassified. */
  function Retagged(items: seq<ScanItem>, ctx: GroupingContext, seed: nat, idx: nat, tag: BoundBy): BoundBy
    requires seed < |items| && idx < |items|
  {
    if idx == seed then Seed
    else if tag != Seed then tag
    else if items[seed].Mid().Some? && items[seed].Mid() == items[idx].Mid() then ByMessageId
    else BoundByForTier2(ctx.identity)
  }

  method Reclassify(items: seq<ScanItem>, ctx: GroupingContext, groups: seq<seq<nat>>, oldTags: seq<BoundBy>, ghost gidOf: seq<nat>)
    returns (tags: seq<BoundBy>)
    requires IsGrouping(groups, gidOf) && |gidOf| == |items| == |oldTags|
    ensures |tags| == |items|
    ensures forall i | 0 <= i < |items| :: tags[i] == Retagged(items, ctx, groups[gidOf[i]][0], i, oldTags[i])
  {
    tags := oldTags;
    for g := 0 to |groups|
      invariant |tags| == |items|
      invariant forall i | 0 <= i < |items| ::
                  tags[i] == if gidOf[i] < g then Retagged(items, ctx, groups[gidOf[i]][0], i, oldTags[i]) else oldTags[i]
    {
      tags := ReclassifyGroup(items, ctx, groups[g], tags);
      forall i: nat | i < |items|
        ensures i in groups[g] <==> gidOf[i] == g
      {
        MemberIffGid(groups, gidOf, g, i);
      }
    }
  }

  /** One group: its first member becomes the seed, and a later member that was a seed is tagged by what it shares with it. */
  method ReclassifyGroup(items: seq<ScanItem>, ctx: GroupingContext, group: seq<nat>, oldTags: seq<BoundBy>) returns (tags: seq<BoundBy>)
    requires |oldTags| == |items| && group != [] && Ascending(group) && forall k | 0 <= k < |group| :: group[k] < |items|
    ensures |tags| == |items|
    ensures forall i | 0 <= i < |items| :: tags[i] == if i in group then Retagged(items, ctx, group[0], i, oldTags[i]) else oldTags[i]
  {
    var seed := group[0];
    tags := oldTags[seed := Seed];
    for k := 1 to |group|
      invariant |tags| == |items|
      invariant forall i | 0 <= i < |items| ::
                  tags[i] == if i in group[..k] then Retagged(items, ctx, seed, i, oldTags[i]) else oldTags[i]
    {
      var idx := group[k];
      if tags[idx] == Seed {
        var midMatch := items[seed].Mid().Some? && items[seed].Mid() == items[idx].Mid();
        tags := tags[idx := if midMatch then ByMessageId else BoundByForTier2(ctx.identity)];
      }
      assert group[..k + 1] == group[..k] + [idx];
    }
    assert group[..|group|] == group;
  }
}
