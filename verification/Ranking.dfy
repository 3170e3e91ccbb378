/** The ranking ladder that picks a provisional winner (`RankKey`, `rank_key`, `decided_by_rung`). */
module Ranking {
  import opened ByteOrder
  import opened Common
  import opened ScanItems

  datatype KeepPolicy = FirstSeen | KeepLargest | PreferPath | EarliestDate

  datatype FidelityMode = Binary | Graded

  datatype RankContext = RankContext(policy: KeepPolicy, preferBccCopy: bool, folderClassFirst: bool, fidelityMode: FidelityMode)

  datatype RankKey = RankKey(
    fidelity: nat, bcc: nat, source: nat, folder: nat,
    policyMissing: nat, policyValue: int, pathKey: Bytes, nid: nat, folderClassFirst: bool)

  /** Source and folder, in the order the flag asks for. */
  function ComparePlaces(a: RankKey, b: RankKey): Ordering {
    if a.folderClassFirst
    then CompareInts(a.folder, b.folder).Then(CompareInts(a.source, b.source))
    else CompareInts(a.source, b.source).Then(CompareInts(a.folder, b.folder))
  }

  /** The order of two keys; only the left key's flag is consulted. */
  function Compare(a: RankKey, b: RankKey): Ordering {
    CompareInts(a.fidelity, b.fidelity)
    .Then(CompareInts(a.bcc, b.bcc))
    .Then(ComparePlaces(a, b))
    .Then(CompareInts(a.policyMissing, b.policyMissing))
    .Then(CompareInts(a.policyValue, b.policyValue))
    .Then(CompareBytes(a.pathKey, b.pathKey))
    .Then(CompareInts(a.nid, b.nid))
  }

  // ---- keys of items ----

  /** How bad a reason is, from soft metadata loss to structural damage. */
  function ReasonTier(reason: IntegrityReason): nat {
    match reason
    case AttachMetaFailed | AttachProbeTruncated | AttachPeerProbeCap | AttachProbeTimeout => 1
    case AttachStreamOpenFailed | AttachStreamReadFailed | AttachStreamCrc | AttachBlockNotFound
      | AttachDataTruncated | AttachMethodUnsupported | AttachCloudLink => 2
    case BodyTruncated | BodyUnavailable | DataTruncated | CrcMismatch | CrcSuspect | BlockNotFound => 3
    case _ => 4
  }

  function WorstTier(reasons: seq<IntegrityReason>): nat {
    if reasons == [] then 0
    else
      var rest := WorstTier(reasons[..|reasons| - 1]);
      var tier := ReasonTier(reasons[|reasons| - 1]);
      if rest < tier then tier else rest
  }

  /** Neither degraded nor orphaned. */
  predicate IsClean(item: ScanItem) {
    !item.integrity.degraded && !item.integrity.orphaned
  }

  function GradedFidelity(item: ScanItem): nat {
    if IsClean(item) then 0
    else if item.integrity.orphaned then 4
    else if WorstTier(item.integrity.reasons) == 0 then 3
    else WorstTier(item.integrity.reasons)
  }

  function FidelityRank(item: ScanItem, mode: FidelityMode): nat {
    match mode
    case Binary => if GradedFidelity(item) == 0 then 0 else 1
    case Graded => GradedFidelity(item)
  }

  /** The submit time if it is positive, else the delivery time if it is. */
  function ResolveDate(item: ScanItem): Option<int> {
    if item.submitTime.Some? && item.submitTime.value > 0 then item.submitTime
    else if item.deliveryTime.Some? && item.deliveryTime.value > 0 then item.deliveryTime
    else None
  }

  function PolicyRank(item: ScanItem, policy: KeepPolicy): (nat, int) {
    match policy
    case FirstSeen => (0, item.scanOrder)
    case KeepLargest => (0, 0 - item.size as int)
    case PreferPath => (0, if item.preferPathMatch then 0 else 1)
    case EarliestDate =>
      match ResolveDate(item)
      case Some(t) => (0, t)
      case None => (1, 0)
  }

  function KeyOf(item: ScanItem, ctx: RankContext): RankKey {
    var (missing, value) := PolicyRank(item, ctx.policy);
    RankKey(FidelityRank(item, ctx.fidelityMode),
            if ctx.preferBccCopy && !item.hasBcc then 1 else 0,
            item.sourceRank, item.folderRank, missing, value, item.pathKey, item.nid, ctx.folderClassFirst)
  }

  /** Fidelity rank zero means clean, in either mode. */
  lemma FidelityZeroIffClean(item: ScanItem, mode: FidelityMode)
    ensures FidelityRank(item, mode) == 0 <==> IsClean(item)
  {
  }

  // ---- the ladder, as a list of rungs ----

  datatype Component = Num(n: int) | Text(s: Bytes)

  function CompareComponents(a: Component, b: Component): Ordering {
    match (a, b)
    case (Num(m), Num(n)) => CompareInts(m, n)
    case (Text(s), Text(t)) => CompareBytes(s, t)
    case (Num(_), Text(_)) => Less
    case (Text(_), Num(_)) => Greater
  }

  /** What is compared, in the order it is compared. */
  function Ladder(k: RankKey): (r: seq<Component>)
    ensures |r| == 8
  {
    [Num(k.fidelity), Num(k.bcc),
     Num(if k.folderClassFirst then k.folder else k.source),
     Num(if k.folderClassFirst then k.source else k.folder),
     Num(k.policyMissing), Num(k.policyValue), Text(k.pathKey), Num(k.nid)]
  }

  datatype Rung = ByFidelity | ByBccCompleteness | BySourceRank | ByFolderClass | ByPolicy(policy: KeepPolicy) | ByPathOrder | ByNid

  /** The vocabulary for each place on the ladder. */
  function RungName(place: nat, folderFirst: bool, policy: KeepPolicy): Rung
    requires place < 8
  {
    if place == 0 then ByFidelity
    else if place == 1 then ByBccCompleteness
    else if place == 2 then (if folderFirst then ByFolderClass else BySourceRank)
    else if place == 3 then (if folderFirst then BySourceRank else ByFolderClass)
    else if place <= 5 then ByPolicy(policy)
    else if place == 6 then ByPathOrder
    else ByNid
  }

  function DecidedByRung(a: RankKey, b: RankKey, policy: KeepPolicy): Rung {
    if a.fidelity != b.fidelity then ByFidelity
    else if a.bcc != b.bcc then ByBccCompleteness
    else if a.folderClassFirst && a.folder != b.folder then ByFolderClass
    else if a.folderClassFirst && a.source != b.source then BySourceRank
    else if !a.folderClassFirst && a.source != b.source then BySourceRank
    else if !a.folderClassFirst && a.folder != b.folder then ByFolderClass
    else if a.policyMissing != b.policyMissing || a.policyValue != b.policyValue then ByPolicy(policy)
    else if a.pathKey != b.pathKey then ByPathOrder
    else if a.nid != b.nid then ByNid
    else ByPathOrder
  }

  // ---- a total order ----

  /** Equality of the order is equality of every component. */
  lemma CompareEqualIff(a: RankKey, b: RankKey)
    requires a.folderClassFirst == b.folderClassFirst
    ensures Compare(a, b) == Equal <==> a == b
  {
    BytesEqualIff(a.pathKey, b.pathKey);
  }

  lemma CompareFlips(a: RankKey, b: RankKey)
    requires a.folderClassFirst == b.folderClassFirst
    ensures Compare(b, a) == Compare(a, b).Flip()
  {
    BytesEqualIff(a.pathKey, b.pathKey);
  }

  function CompareFirst(a: RankKey, b: RankKey): Ordering {
    CompareInts(a.fidelity, b.fidelity).Then(CompareInts(a.bcc, b.bcc)).Then(ComparePlaces(a, b))
  }

  function CompareLast(a: RankKey, b: RankKey): Ordering {
    CompareInts(a.policyMissing, b.policyMissing).Then(CompareInts(a.policyValue, b.policyValue))
    .Then(CompareBytes(a.pathKey, b.pathKey)).Then(CompareInts(a.nid, b.nid))
  }

  lemma TwoParts(a: RankKey, b: RankKey)
    ensures Compare(a, b) == CompareFirst(a, b).Then(CompareLast(a, b))
  {
  }

  lemma FirstComposes(a: RankKey, b: RankKey, c: RankKey)
    requires a.folderClassFirst == b.folderClassFirst == c.folderClassFirst
    ensures Composes(CompareFirst(a, b), CompareFirst(b, c), CompareFirst(a, c))
  {
  }

  lemma LastComposes(a: RankKey, b: RankKey, c: RankKey)
    ensures Composes(CompareLast(a, b), CompareLast(b, c), CompareLast(a, c))
  {
    BytesCompose(a.pathKey, b.pathKey, c.pathKey);
  }

  /** For a fixed flag the order is transitive; with the two lemmas above it is total. */
  lemma CompareTransitive(a: RankKey, b: RankKey, c: RankKey)
    requires a.folderClassFirst == b.folderClassFirst == c.folderClassFirst
    requires Compare(a, b) == Less && Compare(b, c) == Less
    ensures Compare(a, c) == Less
  {
    TwoParts(a, b);
    TwoParts(b, c);
    TwoParts(a, c);
    FirstComposes(a, b, c);
    LastComposes(a, b, c);
    ThenComposes(CompareFirst(a, b), CompareFirst(b, c), CompareFirst(a, c), CompareLast(a, b), CompareLast(b, c), CompareLast(a, c));
  }

  /** The place where two keys first differ, which exists when they differ at all. */
  ghost predicate FirstDifference(a: RankKey, b: RankKey, place: nat) {
    place < 8 && Ladder(a)[place] != Ladder(b)[place] && forall p | 0 <= p < place :: Ladder(a)[p] == Ladder(b)[p]
  }

  /** The order is decided at the first difference, and `decided_by` names that rung, under either folder order. */
  lemma DecidedAtFirstDifference(a: RankKey, b: RankKey, policy: KeepPolicy) returns (place: nat)
    requires a.folderClassFirst == b.folderClassFirst && a != b
    ensures FirstDifference(a, b, place)
    ensures Compare(a, b) == CompareComponents(Ladder(a)[place], Ladder(b)[place]) != Equal
    ensures DecidedByRung(a, b, policy) == RungName(place, a.folderClassFirst, policy)
  {
    BytesEqualIff(a.pathKey, b.pathKey);
    var x, y := Ladder(a), Ladder(b);
    place := if x[0] != y[0] then 0 else if x[1] != y[1] then 1 else if x[2] != y[2] then 2 else if x[3] != y[3] then 3
             else if x[4] != y[4] then 4 else if x[5] != y[5] then 5 else if x[6] != y[6] then 6 else 7;
  }

  /** A smaller key is smaller at the first difference, and that is the rung named for the other one. */
  lemma LessDecides(w: RankKey, l: RankKey, policy: KeepPolicy) returns (place: nat)
    requires w.folderClassFirst == l.folderClassFirst && Compare(w, l) == Less
    ensures FirstDifference(l, w, place) && CompareComponents(Ladder(w)[place], Ladder(l)[place]) == Less
    ensures DecidedByRung(l, w, policy) == RungName(place, l.folderClassFirst, policy)
  {
    CompareEqualIff(w, l);
    place := DecidedAtFirstDifference(w, l, policy);
    RungBothWays(w, l, policy);
  }

  lemma RungBothWays(a: RankKey, b: RankKey, policy: KeepPolicy)
    requires a.folderClassFirst == b.folderClassFirst
    ensures DecidedByRung(a, b, policy) == DecidedByRung(b, a, policy)
  {
  }
}
