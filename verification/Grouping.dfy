/** Grouping policy shared by the two grouping engines (crates/dedup-engine/src/grouping.rs). */
module Grouping {
  import opened Common

  datatype DedupeScope = Global | PerSource

  datatype IdentityLevel = Off | V1 | Body | BodyRecip | BodyRecipAttach {
    predicate IsStrong() {
      !Off? && !V1?
    }
  }

  datatype Tier1Verify = NoVerify | VerifyContent | VerifyBody

  /** How an item was bound into its group. */
  datatype BoundBy = Seed | ByMessageId | ByContentHash | ByStrongContentHash

  datatype GroupingContext = GroupingContext(
    tier2Enabled: bool,
    scope: DedupeScope,
    tier1Authority: bool,
    requireReadableBody: bool,
    identity: IdentityLevel,
    tier1Verify: Tier1Verify,
    allowDegenerateTier2: bool,
    allowCrcSuspectTier2: bool,
    allowCrossMidTier2: bool,
    tier1Backfill: bool
  ) {
    predicate BlockCrossMid() {
      tier1Authority && !allowCrossMidTier2
    }

    predicate EnforceReadableBody() {
      requireReadableBody && !allowDegenerateTier2
    }
  }

  datatype Fingerprints = Fingerprints(body: nat, header: nat, recipients: nat, attachments: nat)

  /** The identity-binding counters; the additive ones that belong to hashing are not modelled. */
  datatype GroupingStats = GroupingStats(
    blockedUnreadable: nat,
    blockedDegenerate: nat,
    blockedCrcSuspect: nat,
    crossMidBlocked: nat,
    crossMidBlockedGroups: nat,
    crossMidBlockedMaxGroup: nat,
    divergentBody: nat,
    divergentMetadata: nat,
    divergentRecipients: nat,
    backfillCandidates: nat)

  const NO_STATS := GroupingStats(0, 0, 0, 0, 0, 0, 0, 0, 0, 0)

  function Max(a: nat, b: nat): nat {
    if a < b then b else a
  }

  /** An empty Message-ID counts as an absent one. */
  function MidPresent(mid: Option<Bytes>): (r: Option<Bytes>)
    ensures r.Some? <==> mid.Some? && mid.value != []
    ensures r.Some? ==> r == mid
  {
    if mid.Some? && mid.value != [] then mid else None
  }

  /** Whether an item may join a group on a content hash, and the Message-ID the group is bound to afterwards. */
  function MidJoinCompatible(groupBound: Option<Bytes>, itemMid: Option<Bytes>, block: bool): (bool, Option<Bytes>) {
    match (MidPresent(groupBound), MidPresent(itemMid))
    case (None, None) => (true, None)
    case (None, Some(m)) => (true, Some(m))
    case (Some(g), None) => (true, Some(g))
    case (Some(g), Some(m)) =>
      if g == m then (true, Some(g))
      else if !block then (true, Some(g))
      else (false, None)
  }

  /** The partition prefix of every map key: nothing, or the source path and a NUL. */
  function ScopePrefix(scope: DedupeScope, source: Bytes): Bytes {
    match scope
    case Global => []
    case PerSource => source + [NUL]
  }

  function MidKey(scope: DedupeScope, source: Bytes, mid: Bytes): Bytes {
    ScopePrefix(scope, source) + mid
  }

  function HashKey(scope: DedupeScope, source: Bytes, hash: Hash): Bytes {
    ScopePrefix(scope, source) + hash
  }

  function Tier2BindHash(contentHash: Hash, strongHash: Option<Hash>, identity: IdentityLevel): Hash {
    if identity.IsStrong() && strongHash.Some? then strongHash.value else contentHash
  }

  function BoundByForTier2(identity: IdentityLevel): BoundBy {
    if identity.IsStrong() then ByStrongContentHash else ByContentHash
  }

  /** Whether a Message-ID hit is rejected because the content or body differs. */
  predicate SplitsTier1(ctx: GroupingContext, itemHash: Hash, itemFp: Fingerprints, groupHash: Hash, groupBody: nat) {
    match ctx.tier1Verify
    case NoVerify => false
    case VerifyContent => itemHash != groupHash
    case VerifyBody => itemFp.body != groupBody
  }

  /** A Message-ID hit is always counted against the component that differs, split or not. */
  function NoteDivergence(stats: GroupingStats, group: Fingerprints, item: Fingerprints): GroupingStats {
    var bodyDiff := item.body != group.body;
    var metaDiff := item.header != group.header || item.attachments != group.attachments;
    var recipDiff := item.recipients != group.recipients;
    if bodyDiff then stats.(divergentBody := stats.divergentBody + 1)
    else if recipDiff && !metaDiff then stats.(divergentRecipients := stats.divergentRecipients + 1)
    else if metaDiff then stats.(divergentMetadata := stats.divergentMetadata + 1)
    else stats
  }

  /** The Message-IDs known to have collided on a hash, after one more block. */
  function GrownCluster(cluster: map<Bytes, set<Bytes>>, hkey: Bytes, bound: Option<Bytes>, mid: Bytes): set<Bytes> {
    (if hkey in cluster then cluster[hkey] else {}) + (if bound.Some? then {bound.value} else {}) + {mid}
  }

  function NoteCrossMidBlock(stats: GroupingStats, firstForKey: bool, clusterSize: nat): GroupingStats {
    stats.(crossMidBlocked := stats.crossMidBlocked + 1,
           crossMidBlockedGroups := stats.crossMidBlockedGroups + (if firstForKey then 1 else 0),
           crossMidBlockedMaxGroup := Max(stats.crossMidBlockedMaxGroup, clusterSize))
  }

  /** Hash keys never collide across partitions, because a digest has a fixed length. */
  lemma HashKeyInjective(scope: DedupeScope, s1: Bytes, h1: Hash, s2: Bytes, h2: Hash)
    ensures HashKey(scope, s1, h1) == HashKey(scope, s2, h2) <==>
            ScopePrefix(scope, s1) == ScopePrefix(scope, s2) && h1 == h2
  {
    if HashKey(scope, s1, h1) == HashKey(scope, s2, h2) {
      EqualTails(ScopePrefix(scope, s1), h1, ScopePrefix(scope, s2), h2);
    }
  }

  /** Equal prefixes mean the same partition. */
  lemma ScopePrefixInjective(scope: DedupeScope, s1: Bytes, s2: Bytes)
    ensures ScopePrefix(scope, s1) == ScopePrefix(scope, s2) <==> scope.Global? || s1 == s2
  {
    if scope.PerSource? && ScopePrefix(scope, s1) == ScopePrefix(scope, s2) {
      EqualTails(s1, [NUL], s2, [NUL]);
    }
  }

  /** Message-ID keys are unambiguous when no path holds a NUL; the NUL in the prefix is what separates them. */
  lemma MidKeyInjective(scope: DedupeScope, s1: Bytes, m1: Bytes, s2: Bytes, m2: Bytes)
    requires scope.PerSource? ==> !Contains(s1, NUL) && !Contains(s2, NUL)
    ensures MidKey(scope, s1, m1) == MidKey(scope, s2, m2) <==> (scope.Global? || s1 == s2) && m1 == m2
  {
    if MidKey(scope, s1, m1) == MidKey(scope, s2, m2) {
      match scope
      case Global => EqualTails([], m1, [], m2);
      case PerSource => EqualHeads(s1, m1, s2, m2, NUL);
    }
  }
}
