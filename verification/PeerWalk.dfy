/** Choosing the peer of one group that is exported (the attempt loop of `finalize_with_materialize_opts`). */
module PeerWalk {
  import opened Common

  /** What materializing a peer gives: a hard failure, or a message whose attachments are complete or not. */
  datatype MatOutcome = HardFail | Complete | Incomplete

  datatype PromoteReason = MaterializeFail | AttachIncomplete | ModeCFallbackAllPeersIncomplete

  /**
   The result of a walk: the accepted peer, whether it counts as promoted and why, the peers that failed hard,
   the peers skipped for incomplete attachments, and every peer that was materialized, in order.
   */
  datatype Walk = Walk(winner: Option<nat>, promoted: bool, reason: Option<PromoteReason>,
                       failed: seq<nat>, skipped: seq<nat>, calls: seq<nat>)

  predicate Covers(mat: seq<MatOutcome>, ranked: seq<nat>) {
    forall k | 0 <= k < |ranked| :: ranked[k] < |mat|
  }

  /** With promotion on only a complete peer is taken at once; with it off any materialized peer is. */
  predicate Accepts(outcome: MatOutcome, promote: bool) {
    outcome.Complete? || (outcome.Incomplete? && !promote)
  }

  /** The peers with a given outcome, in rank order. */
  function Only(mat: seq<MatOutcome>, ranked: seq<nat>, outcome: MatOutcome): seq<nat>
    requires Covers(mat, ranked)
  {
    if ranked == [] then []
    else
      var n := |ranked| - 1;
      Only(mat, ranked[..n], outcome) + (if mat[ranked[n]] == outcome then [ranked[n]] else [])
  }

  lemma {:induction false} OnlyMembers(mat: seq<MatOutcome>, ranked: seq<nat>, outcome: MatOutcome)
    requires Covers(mat, ranked)
    ensures forall x :: x in Only(mat, ranked, outcome) <==> x in ranked && mat[x] == outcome
  {
    if ranked != [] {
      var n := |ranked| - 1;
      OnlyMembers(mat, ranked[..n], outcome);
      assert ranked == ranked[..n] + [ranked[n]];
    }
  }

  lemma OnlyAppend(mat: seq<MatOutcome>, ranked: seq<nat>, k: nat, outcome: MatOutcome)
    requires Covers(mat, ranked) && k < |ranked|
    ensures Only(mat, ranked[..k + 1], outcome) ==
            Only(mat, ranked[..k], outcome) + (if mat[ranked[k]] == outcome then [ranked[k]] else [])
  {
    assert ranked[..k + 1][..k] == ranked[..k];
  }

  /** The position of the first peer that is accepted outright. */
  function FirstAccepted(mat: seq<MatOutcome>, promote: bool, ranked: seq<nat>): (r: Option<nat>)
    requires Covers(mat, ranked)
    ensures r.Some? ==> r.value < |ranked| && Accepts(mat[ranked[r.value]], promote)
                        && forall j | 0 <= j < r.value :: !Accepts(mat[ranked[j]], promote)
    ensures r.None? ==> forall j | 0 <= j < |ranked| :: !Accepts(mat[ranked[j]], promote)
  {
    if ranked == [] then None
    else
      var n := |ranked| - 1;
      var earlier := FirstAccepted(mat, promote, ranked[..n]);
      if earlier.Some? then earlier else if Accepts(mat[ranked[n]], promote) then Some(n) else None
  }

  /** None of the first n peers is accepted outright. */
  predicate NoneAccepted(mat: seq<MatOutcome>, promote: bool, ranked: seq<nat>, n: nat)
    requires Covers(mat, ranked) && n <= |ranked|
  {
    forall j | 0 <= j < n :: !Accepts(mat[ranked[j]], promote)
  }

  lemma FirstAcceptedIs(mat: seq<MatOutcome>, promote: bool, ranked: seq<nat>, k: nat)
    requires Covers(mat, ranked) && k <= |ranked| && NoneAccepted(mat, promote, ranked, k)
    ensures k < |ranked| && Accepts(mat[ranked[k]], promote) ==> FirstAccepted(mat, promote, ranked) == Some(k)
    ensures k == |ranked| ==> FirstAccepted(mat, promote, ranked) == None
    ensures k < |ranked| && !Accepts(mat[ranked[k]], promote) ==> NoneAccepted(mat, promote, ranked, k + 1)
  {
  }

  /** The declarative pick: the first accepted peer, else the first that materialized at all, else nobody. */
  function Pick(mat: seq<MatOutcome>, promote: bool, ranked: seq<nat>): Walk
    requires Covers(mat, ranked)
  {
    match FirstAccepted(mat, promote, ranked)
    case Some(k) =>
      var earlier := ranked[..k];
      var soft := Only(mat, earlier, Incomplete);
      Walk(Some(ranked[k]), k > 0,
           if k == 0 then None else if soft != [] then Some(AttachIncomplete) else Some(MaterializeFail),
           Only(mat, earlier, HardFail), soft, ranked[..k + 1])
    case None =>
      var soft := Only(mat, ranked, Incomplete);
      if soft != [] then
        Walk(Some(soft[0]), |ranked| > 1, Some(ModeCFallbackAllPeersIncomplete), Only(mat, ranked, HardFail), soft[1..], ranked)
      else
        Walk(None, false, None, Only(mat, ranked, HardFail), [], ranked)
  }

  /** The pick in the three ways a walk can end. */
  lemma PickOnAccept(mat: seq<MatOutcome>, promote: bool, ranked: seq<nat>, k: nat)
    requires Covers(mat, ranked) && k < |ranked| && NoneAccepted(mat, promote, ranked, k) && Accepts(mat[ranked[k]], promote)
    ensures var soft := Only(mat, ranked[..k], Incomplete);
            Pick(mat, promote, ranked) ==
            Walk(Some(ranked[k]), k > 0, if k == 0 then None else if soft != [] then Some(AttachIncomplete) else Some(MaterializeFail),
                 Only(mat, ranked[..k], HardFail), soft, ranked[..k + 1])
  {
    FirstAcceptedIs(mat, promote, ranked, k);
  }

  lemma PickOnExhaustion(mat: seq<MatOutcome>, promote: bool, ranked: seq<nat>)
    requires Covers(mat, ranked) && NoneAccepted(mat, promote, ranked, |ranked|)
    ensures var soft := Only(mat, ranked, Incomplete);
            Pick(mat, promote, ranked) ==
            if soft != [] then
              Walk(Some(soft[0]), |ranked| > 1, Some(ModeCFallbackAllPeersIncomplete), Only(mat, ranked, HardFail), soft[1..], ranked)
            else Walk(None, false, None, Only(mat, ranked, HardFail), [], ranked)
  {
    FirstAcceptedIs(mat, promote, ranked, |ranked|);
  }

  /** Some earlier peer failed or was skipped whenever the walk got past the first one. */
  lemma SomethingHappened(mat: seq<MatOutcome>, promote: bool, ranked: seq<nat>, k: nat)
    requires Covers(mat, ranked) && k <= |ranked| && NoneAccepted(mat, promote, ranked, k)
    ensures k > 0 <==> Only(mat, ranked[..k], HardFail) != [] || Only(mat, ranked[..k], Incomplete) != []
  {
    if k > 0 {
      assert ranked[0] == ranked[..k][0] && ranked[0] in ranked[..k];
      assert !Accepts(mat[ranked[0]], promote);
      OnlyMembers(mat, ranked[..k], HardFail);
      OnlyMembers(mat, ranked[..k], Incomplete);
      assert ranked[0] in Only(mat, ranked[..k], HardFail) || ranked[0] in Only(mat, ranked[..k], Incomplete);
    }
  }

  function AtLeastOne(n: nat): nat {
    if n < 1 then 1 else n
  }

  /** What the flags and lists of a finished walk amount to. */
  function Concluded(winner: Option<nat>, acceptedAttempt: nat, hadHardFail: bool, hadSoftSkip: bool, modeCFallback: bool,
                     failed: seq<nat>, softSkipped: seq<nat>, calls: seq<nat>): Walk {
    if winner.None? then Walk(None, false, None, failed, [], calls)
    else
      var promoted := acceptedAttempt > 0 || hadHardFail || hadSoftSkip;
      Walk(winner, promoted,
           if modeCFallback then Some(ModeCFallbackAllPeersIncomplete)
           else if !promoted then None
           else if hadSoftSkip then Some(AttachIncomplete)
           else Some(MaterializeFail),
           failed, softSkipped, calls)
  }

  /** The lists when the first n peers were tried and none was accepted. */
  ghost predicate Walking(mat: seq<MatOutcome>, promote: bool, ranked: seq<nat>, n: nat, failed: seq<nat>, softSkipped: seq<nat>, calls: seq<nat>)
    requires Covers(mat, ranked) && n <= |ranked|
  {
    && calls == ranked[..n] && failed == Only(mat, ranked[..n], HardFail) && softSkipped == Only(mat, ranked[..n], Incomplete)
    && NoneAccepted(mat, promote, ranked, n)
  }

  lemma WalkOn(mat: seq<MatOutcome>, promote: bool, ranked: seq<nat>, n: nat, failed: seq<nat>, softSkipped: seq<nat>, calls: seq<nat>)
    requires Covers(mat, ranked) && n < |ranked| && Walking(mat, promote, ranked, n, failed, softSkipped, calls)
    requires !Accepts(mat[ranked[n]], promote)
    ensures mat[ranked[n]].HardFail? ==> Walking(mat, promote, ranked, n + 1, failed + [ranked[n]], softSkipped, calls + [ranked[n]])
    ensures mat[ranked[n]].Incomplete? ==> Walking(mat, promote, ranked, n + 1, failed, softSkipped + [ranked[n]], calls + [ranked[n]])
  {
    OnlyAppend(mat, ranked, n, HardFail);
    OnlyAppend(mat, ranked, n, Incomplete);
  }

  lemma AcceptConcludes(mat: seq<MatOutcome>, promote: bool, ranked: seq<nat>, n: nat, failed: seq<nat>, softSkipped: seq<nat>, calls: seq<nat>)
    requires Covers(mat, ranked) && n < |ranked| && Walking(mat, promote, ranked, n, failed, softSkipped, calls)
    requires Accepts(mat[ranked[n]], promote)
    ensures Concluded(Some(ranked[n]), n, failed != [], softSkipped != [], false, failed, softSkipped, calls + [ranked[n]])
         == Pick(mat, promote, ranked)
  {
    PickOnAccept(mat, promote, ranked, n);
    SomethingHappened(mat, promote, ranked, n);
  }

  /** The last peer is incomplete: the first incomplete one wins. */
  lemma LastConcludes(mat: seq<MatOutcome>, promote: bool, ranked: seq<nat>, n: nat, failed: seq<nat>, softSkipped: seq<nat>, calls: seq<nat>)
    requires Covers(mat, ranked) && n + 1 == |ranked| && Walking(mat, promote, ranked, n, failed, softSkipped, calls)
    requires !Accepts(mat[ranked[n]], promote) && mat[ranked[n]].Incomplete?
    ensures softSkipped == [] ==>
              Concluded(Some(ranked[n]), n, failed != [], false, true, failed, [], calls + [ranked[n]]) == Pick(mat, promote, ranked)
    ensures softSkipped != [] ==>
              Concluded(Some(softSkipped[0]), AtLeastOne(n), failed != [], true, true, failed, softSkipped[1..] + [ranked[n]],
                        calls + [ranked[n]]) == Pick(mat, promote, ranked)
  {
    WalkOn(mat, promote, ranked, n, failed, softSkipped, calls);
    SomethingHappened(mat, promote, ranked, n);
    assert ranked[..n + 1] == ranked;
    PickOnExhaustion(mat, promote, ranked);
    assert (softSkipped + [ranked[n]])[1..] == if softSkipped == [] then [] else softSkipped[1..] + [ranked[n]];
  }

  /** All peers were tried: an incomplete one wins if there is any. */
  lemma ExhaustedConcludes(mat: seq<MatOutcome>, promote: bool, ranked: seq<nat>, failed: seq<nat>, softSkipped: seq<nat>, calls: seq<nat>)
    requires Covers(mat, ranked) && Walking(mat, promote, ranked, |ranked|, failed, softSkipped, calls)
    requires softSkipped != [] ==> |ranked| > 1
    ensures Concluded(None, 0, failed != [], false, false, failed, [], calls) == Pick(mat, promote, ranked) || softSkipped != []
    ensures softSkipped != [] ==>
              Concluded(Some(softSkipped[0]), 1, failed != [], true, true, failed, softSkipped[1..], calls) == Pick(mat, promote, ranked)
  {
    assert ranked[..|ranked|] == ranked;
    PickOnExhaustion(mat, promote, ranked);
  }

  /** The loop as it runs, with its stash of incomplete peers and its flags. */
  method WalkPeers(mat: seq<MatOutcome>, promote: bool, ranked: seq<nat>) returns (walk: Walk)
    requires Covers(mat, ranked)
    ensures walk == Pick(mat, promote, ranked)
  {
    var failed: seq<nat>, softSkipped: seq<nat>, calls: seq<nat> := [], [], [];
    var hadHardFail, hadSoftSkip := false, false;
    var attempt: nat := 0;
    while attempt < |ranked|
      invariant attempt <= |ranked| && Walking(mat, promote, ranked, attempt, failed, softSkipped, calls)
      invariant softSkipped != [] ==> |ranked| > 1
      invariant hadHardFail == (failed != []) && hadSoftSkip == (softSkipped != [])
    {
      var idx := ranked[attempt];
      if mat[idx].HardFail? {
        WalkOn(mat, promote, ranked, attempt, failed, softSkipped, calls);
        failed := failed + [idx];
        hadHardFail := true;
      } else {
        var incomplete := promote && mat[idx].Incomplete?;
        var morePeers := attempt + 1 < |ranked|;
        if incomplete && morePeers {
          WalkOn(mat, promote, ranked, attempt, failed, softSkipped, calls);
          hadSoftSkip := true;
          softSkipped := softSkipped + [idx];
        } else if incomplete {
          LastConcludes(mat, promote, ranked, attempt, failed, softSkipped, calls);
          if softSkipped == [] {
            return Concluded(Some(idx), attempt, hadHardFail, hadSoftSkip, true, failed, softSkipped, calls + [idx]);
          }
          return Concluded(Some(softSkipped[0]), AtLeastOne(attempt), hadHardFail, hadSoftSkip, true,
                           failed, softSkipped[1..] + [idx], calls + [idx]);
        } else {
          AcceptConcludes(mat, promote, ranked, attempt, failed, softSkipped, calls);
          return Concluded(Some(idx), attempt, hadHardFail, hadSoftSkip, false, failed, softSkipped, calls + [idx]);
        }
      }
      calls := calls + [idx];
      attempt := attempt + 1;
    }
    ExhaustedConcludes(mat, promote, ranked, failed, softSkipped, calls);
    if softSkipped != [] {
      return Concluded(Some(softSkipped[0]), 1, hadHardFail, hadSoftSkip, true, failed, softSkipped[1..], calls);
    }
    walk := Concluded(None, 0, hadHardFail, hadSoftSkip, false, failed, [], calls);
  }

  // ---- what the pick means ----

  /** With promotion on the winner is the first complete peer, else the first materializable one; with it off the latter. */
  lemma WinnerIsFirstBest(mat: seq<MatOutcome>, promote: bool, ranked: seq<nat>, p: nat)
    requires Covers(mat, ranked) && p < |ranked|
    requires if promote && exists q :: 0 <= q < |ranked| && mat[ranked[q]].Complete?
             then mat[ranked[p]].Complete? && forall q | 0 <= q < p :: !mat[ranked[q]].Complete?
             else !mat[ranked[p]].HardFail? && forall q | 0 <= q < p :: mat[ranked[q]].HardFail?
    ensures Pick(mat, promote, ranked).winner == Some(ranked[p])
  {
    if FirstAccepted(mat, promote, ranked).None? {
      FirstSoftAt(mat, ranked, p);
    }
  }

  lemma SoftEmpty(mat: seq<MatOutcome>, ranked: seq<nat>)
    requires Covers(mat, ranked)
    ensures Only(mat, ranked, Incomplete) == [] <==> forall x | x in ranked :: !mat[x].Incomplete?
  {
    var soft := Only(mat, ranked, Incomplete);
    OnlyMembers(mat, ranked, Incomplete);
    if soft != [] {
      assert soft[0] in soft;
    }
  }

  lemma {:induction false} FirstSoftAt(mat: seq<MatOutcome>, ranked: seq<nat>, p: nat)
    requires Covers(mat, ranked) && p < |ranked| && mat[ranked[p]].Incomplete?
    requires forall q | 0 <= q < p :: !mat[ranked[q]].Incomplete?
    ensures Only(mat, ranked, Incomplete) != [] && Only(mat, ranked, Incomplete)[0] == ranked[p]
  {
    var n := |ranked| - 1;
    if p < n {
      FirstSoftAt(mat, ranked[..n], p);
    } else {
      SoftEmpty(mat, ranked[..n]);
    }
  }

  /** A group is dropped exactly when every peer fails hard. */
  lemma DroppedIffAllFail(mat: seq<MatOutcome>, promote: bool, ranked: seq<nat>)
    requires Covers(mat, ranked)
    ensures Pick(mat, promote, ranked).winner.None? <==> forall x | x in ranked :: mat[x].HardFail?
  {
    var walk := Pick(mat, promote, ranked);
    OnlyMembers(mat, ranked, Incomplete);
    if walk.winner.None? {
      forall x | x in ranked
        ensures mat[x].HardFail?
      {
        var j :| 0 <= j < |ranked| && ranked[j] == x;
        assert !Accepts(mat[ranked[j]], promote);
        assert x !in Only(mat, ranked, Incomplete);
      }
    } else {
      WinnerMaterialized(mat, promote, ranked);
    }
  }

  /** The winner was materialized, and did not fail. */
  lemma WinnerMaterialized(mat: seq<MatOutcome>, promote: bool, ranked: seq<nat>)
    requires Covers(mat, ranked) && Pick(mat, promote, ranked).winner.Some?
    ensures var w := Pick(mat, promote, ranked).winner.value;
            w in ranked && !mat[w].HardFail? && w in Pick(mat, promote, ranked).calls
  {
    var soft := Only(mat, ranked, Incomplete);
    OnlyMembers(mat, ranked, Incomplete);
    if FirstAccepted(mat, promote, ranked).None? {
      assert soft[0] in soft;
    }
  }

  /** No peer is materialized twice, and none out of rank order. */
  lemma CallsArePrefix(mat: seq<MatOutcome>, promote: bool, ranked: seq<nat>)
    requires Covers(mat, ranked)
    ensures Pick(mat, promote, ranked).calls <= ranked
  {
  }

  /** The reason follows from how the walk went, and a winner counts as promoted when more than one peer was tried. */
  lemma ReasonExplained(mat: seq<MatOutcome>, promote: bool, ranked: seq<nat>)
    requires Covers(mat, ranked) && Pick(mat, promote, ranked).winner.Some?
    ensures var walk := Pick(mat, promote, ranked);
            var allIncomplete := forall x | x in ranked :: !Accepts(mat[x], promote);
            && walk.promoted == (|walk.calls| > 1)
            && (walk.reason == Some(ModeCFallbackAllPeersIncomplete) <==> allIncomplete)
            && (walk.reason == Some(AttachIncomplete) <==> !allIncomplete && walk.skipped != [])
            && (walk.reason == Some(MaterializeFail) <==> !allIncomplete && walk.skipped == [] && walk.failed != [])
            && (walk.reason == None <==> !allIncomplete && |walk.calls| == 1)
  {
    match FirstAccepted(mat, promote, ranked)
    case Some(k) =>
      assert ranked[k] in ranked;
      if k > 0 {
        SomethingHappened(mat, promote, ranked, k);
      }
    case None =>
      OnlyMembers(mat, ranked, Incomplete);
      forall x | x in ranked
        ensures !Accepts(mat[x], promote)
      {
        var j :| 0 <= j < |ranked| && ranked[j] == x;
        assert !Accepts(mat[ranked[j]], promote);
      }
      assert Only(mat, ranked, Incomplete)[0] in ranked;
  }

  /** Nothing is accepted outright: every peer failed, or was incomplete while promotion was on. */
  ghost predicate NobodyAccepted(mat: seq<MatOutcome>, promote: bool, ranked: seq<nat>)
    requires Covers(mat, ranked)
  {
    forall x | x in ranked :: mat[x].HardFail? || (mat[x].Incomplete? && promote)
  }

  /** Peer k wins as it is, and is the last one tried. */
  ghost predicate EndsAt(mat: seq<MatOutcome>, promote: bool, ranked: seq<nat>, walk: Walk, k: nat)
    requires Covers(mat, ranked)
  {
    && k < |ranked| && walk.calls == ranked[..k + 1] && walk.winner == Some(ranked[k])
    && (mat[ranked[k]].Complete? || (mat[ranked[k]].Incomplete? && !promote)) && NobodyAccepted(mat, promote, ranked[..k])
  }

  /** The walk stops at the first peer that may be taken as it is, and tries everybody when there is none. */
  lemma CallsStopAtFirstAccepted(mat: seq<MatOutcome>, promote: bool, ranked: seq<nat>)
    requires Covers(mat, ranked)
    ensures var walk := Pick(mat, promote, ranked);
            if NobodyAccepted(mat, promote, ranked) then walk.calls == ranked
            else exists k: nat :: EndsAt(mat, promote, ranked, walk, k)
  {
    match FirstAccepted(mat, promote, ranked)
    case Some(k) =>
      assert ranked[k] in ranked;
      NobodyIs(mat, promote, ranked[..k]);
      assert EndsAt(mat, promote, ranked, Pick(mat, promote, ranked), k);
    case None => NobodyIs(mat, promote, ranked);
  }

  lemma NobodyIs(mat: seq<MatOutcome>, promote: bool, ranked: seq<nat>)
    requires Covers(mat, ranked) && NoneAccepted(mat, promote, ranked, |ranked|)
    ensures NobodyAccepted(mat, promote, ranked)
  {
    forall x | x in ranked
      ensures mat[x].HardFail? || (mat[x].Incomplete? && promote)
    {
      var j :| 0 <= j < |ranked| && ranked[j] == x;
      assert !Accepts(mat[ranked[j]], promote);
    }
  }

  lemma {:induction false} OnlyDistinct(mat: seq<MatOutcome>, ranked: seq<nat>, outcome: MatOutcome)
    requires Covers(mat, ranked) && Distinct(ranked)
    ensures Distinct(Only(mat, ranked, outcome))
  {
    if ranked != [] {
      var n := |ranked| - 1;
      OnlyDistinct(mat, ranked[..n], outcome);
      OnlyMembers(mat, ranked[..n], outcome);
    }
  }

  /** The lists of a walk say what the calls gave: the failed peers, and the incomplete ones that did not win. */
  ghost predicate ListsSay(mat: seq<MatOutcome>, walk: Walk) {
    && (forall x :: x in walk.failed <==> x in walk.calls && x < |mat| && mat[x].HardFail?)
    && (forall x :: x in walk.skipped <==> x in walk.calls && x < |mat| && mat[x].Incomplete? && walk.winner != Some(x))
  }

  lemma ListsExplained(mat: seq<MatOutcome>, promote: bool, ranked: seq<nat>)
    requires Covers(mat, ranked) && Distinct(ranked)
    ensures ListsSay(mat, Pick(mat, promote, ranked))
  {
    match FirstAccepted(mat, promote, ranked)
    case Some(k) => ListsOnAccept(mat, promote, ranked, k);
    case None => ListsOnExhaustion(mat, promote, ranked);
  }

  lemma ListsOnAccept(mat: seq<MatOutcome>, promote: bool, ranked: seq<nat>, k: nat)
    requires Covers(mat, ranked) && FirstAccepted(mat, promote, ranked) == Some(k)
    ensures ListsSay(mat, Pick(mat, promote, ranked))
  {
    NobodyIs(mat, promote, ranked[..k]);
    SplitAt(ranked, k);
    AcceptedWalk(mat, promote, ranked[..k], ranked[k], Pick(mat, promote, ranked));
  }

  lemma SplitAt(s: seq<nat>, k: nat)
    requires k < |s|
    ensures s[..k + 1] == s[..k] + [s[k]]
  {
  }

  lemma AcceptedWalk(mat: seq<MatOutcome>, promote: bool, earlier: seq<nat>, w: nat, walk: Walk)
    requires Covers(mat, earlier) && NobodyAccepted(mat, promote, earlier) && w < |mat| && Accepts(mat[w], promote)
    requires walk.calls == earlier + [w] && walk.winner == Some(w)
    requires walk.failed == Only(mat, earlier, HardFail) && walk.skipped == Only(mat, earlier, Incomplete)
    ensures ListsSay(mat, walk)
  {
    OnlyMembers(mat, earlier, HardFail);
    OnlyMembers(mat, earlier, Incomplete);
    AcceptedSays(mat, promote, earlier, w, walk);
  }

  lemma AcceptedSays(mat: seq<MatOutcome>, promote: bool, earlier: seq<nat>, w: nat, walk: Walk)
    requires Covers(mat, earlier) && NobodyAccepted(mat, promote, earlier) && w < |mat| && Accepts(mat[w], promote)
    requires walk.calls == earlier + [w] && walk.winner == Some(w)
    requires forall x :: x in walk.failed <==> x in earlier && mat[x].HardFail?
    requires forall x :: x in walk.skipped <==> x in earlier && mat[x].Incomplete?
    ensures ListsSay(mat, walk)
  {
  }

  lemma ListsOnExhaustion(mat: seq<MatOutcome>, promote: bool, ranked: seq<nat>)
    requires Covers(mat, ranked) && Distinct(ranked) && FirstAccepted(mat, promote, ranked).None?
    ensures ListsSay(mat, Pick(mat, promote, ranked))
  {
    OnlyMembers(mat, ranked, HardFail);
    OnlyMembers(mat, ranked, Incomplete);
    OnlyDistinct(mat, ranked, Incomplete);
    var soft := Only(mat, ranked, Incomplete);
    if soft != [] {
      TailMembers(soft);
    }
  }

  lemma TailMembers(s: seq<nat>)
    requires s != [] && Distinct(s)
    ensures forall x :: x in s[1..] <==> x in s && x != s[0]
  {
    forall x | x in s && x != s[0]
      ensures x in s[1..]
    {
      var k :| 0 <= k < |s| && s[k] == x;
      assert s[1..][k - 1] == x;
    }
  }

  lemma {:induction false} OnlyCounts(mat: seq<MatOutcome>, promote: bool, ranked: seq<nat>)
    requires Covers(mat, ranked) && NoneAccepted(mat, promote, ranked, |ranked|)
    ensures |Only(mat, ranked, HardFail)| + |Only(mat, ranked, Incomplete)| == |ranked|
  {
    if ranked != [] {
      var n := |ranked| - 1;
      assert !Accepts(mat[ranked[n]], promote);
      OnlyCounts(mat, promote, ranked[..n]);
    }
  }

  /** A winner counts as promoted exactly when another peer failed or was skipped for it; and what the reason says. */
  lemma PromotionFromLists(mat: seq<MatOutcome>, promote: bool, ranked: seq<nat>)
    requires Covers(mat, ranked) && Pick(mat, promote, ranked).winner.Some?
    ensures var walk := Pick(mat, promote, ranked);
            && walk.promoted == (walk.skipped != [] || walk.failed != [])
            && walk.reason == if NobodyAccepted(mat, promote, ranked) then Some(ModeCFallbackAllPeersIncomplete)
                              else if walk.skipped != [] then Some(AttachIncomplete)
                              else if walk.failed != [] then Some(MaterializeFail)
                              else None
  {
    match FirstAccepted(mat, promote, ranked)
    case Some(k) =>
      OnlyCounts(mat, promote, ranked[..k]);
      assert ranked[k] in ranked;
    case None =>
      OnlyCounts(mat, promote, ranked);
      NobodyIs(mat, promote, ranked);
  }
}
