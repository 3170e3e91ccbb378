/** One recoverable message as the scan hands it to grouping and ranking (keepset.rs, integrity.rs). */
module ScanItems {
  import opened Common
  import opened Grouping

  datatype IntegrityReason =
    | AttachMetaFailed | AttachProbeTruncated | AttachPeerProbeCap | AttachProbeTimeout
    | AttachStreamOpenFailed | AttachStreamReadFailed | AttachStreamCrc | AttachBlockNotFound
    | AttachDataTruncated | AttachMethodUnsupported | AttachCloudLink
    | BodyTruncated | BodyUnavailable | DataTruncated | CrcMismatch | CrcSuspect | BlockNotFound
    | OrphanedNode | InvalidStructure | MessageReadFailed | PropertyError | NodeNotFound
    | OpenFailed | AnsiUnsupported | UnsupportedCrypt | FolderWalkFailed | PathNotFound | NotPst | ReadError

  datatype Integrity = Integrity(orphaned: bool, degraded: bool, reasons: seq<IntegrityReason>)

  /** Source and folder ranks are what the pattern tables give this item; the tables are not modelled. */
  datatype ScanItem = ScanItem(
    pathKey: Bytes,
    nid: nat,
    messageId: Option<Bytes>,
    contentHash: Hash,
    strongHash: Option<Hash>,
    fp: Fingerprints,
    size: nat,
    scanOrder: nat,
    submitTime: Option<int>,
    deliveryTime: Option<int>,
    hasBcc: bool,
    integrity: Integrity,
    hasBodyPreview: bool,
    subjectNonempty: bool,
    senderNonempty: bool,
    attachCount: nat,
    preferPathMatch: bool,
    sourceRank: nat,
    folderRank: nat
  ) {
    function Mid(): Option<Bytes> {
      MidPresent(messageId)
    }

    function BindHash(identity: IdentityLevel): Hash {
      Tier2BindHash(contentHash, strongHash, identity)
    }
  }

  datatype Assessment = Eligible | UnreadableBody | Degenerate | CrcTainted

  function One(b: bool): nat {
    if b then 1 else 0
  }

  /** Why an item may not take part in hash binding; the CRC taint is looked at first. */
  function Assess(item: ScanItem): Assessment {
    var reasons := item.integrity.reasons;
    if CrcSuspect in reasons then CrcTainted
    else if BodyTruncated in reasons || BodyUnavailable in reasons then UnreadableBody
    else if item.hasBodyPreview then Eligible
    else if One(item.subjectNonempty) + One(item.submitTime.Some?) + One(item.senderNonempty) + One(item.attachCount >= 1) < 2
    then Degenerate
    else Eligible
  }

  /** The eligibility batch grouping and the index rebuild decide under the active guards. */
  predicate BatchEligible(item: ScanItem, ctx: GroupingContext) {
    match Assess(item)
    case Eligible => true
    case UnreadableBody => !ctx.EnforceReadableBody()
    case Degenerate => !ctx.EnforceReadableBody()
    case CrcTainted => ctx.allowCrcSuspectTier2
  }

  function NoteEligibility(stats: GroupingStats, item: ScanItem, ctx: GroupingContext): GroupingStats {
    if BatchEligible(item, ctx) then stats
    else match Assess(item)
      case UnreadableBody => stats.(blockedUnreadable := stats.blockedUnreadable + 1)
      case Degenerate => stats.(blockedDegenerate := stats.blockedDegenerate + 1)
      case CrcTainted => stats.(blockedCrcSuspect := stats.blockedCrcSuspect + 1)
      case Eligible => stats
  }
}
