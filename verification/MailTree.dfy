/** A written message against the attachment tree it comes from and the store its streams are opened in, and nothing else. */
module MailTree {
  import opened Common
  import opened Base64
  import opened Base64Decoding
  import opened NestedEml

  // ---- what the store gives ----

  type Store = (nat, nat) -> Opening

  /** The first read that gives no bytes, or the end of the reads. */
  function Length(input: seq<Read>): (n: nat)
    ensures n <= |input|
    ensures forall k | 0 <= k < n :: input[k].Data? && input[k].bytes != []
    ensures n < |input| ==> input[n] == Read.Failed || input[n] == Data([])
  {
    if input == [] || input[0] == Read.Failed || input[0] == Data([]) then 0
    else
      assert input == [input[0]] + input[1..];
      1 + Length(input[1..])
  }

  /** No read failed before the end. */
  predicate ReadsFine(input: seq<Read>) {
    Length(input) == |input| || input[Length(input)] == Data([])
  }

  function Joined(input: seq<Read>, n: nat): Bytes
    requires n <= |input| && forall k | 0 <= k < n :: input[k].Data?
  {
    if n == 0 then [] else Joined(input, n - 1) + input[n - 1].bytes
  }

  /** All bytes a stream gives. */
  function AllBytes(input: seq<Read>): Bytes {
    Joined(input, Length(input))
  }

  lemma ReadsFineIs(input: seq<Read>)
    ensures ReadsFine(input) <==> Succeeds(input)
  {
    if input != [] && input[0].Data? && input[0].bytes != [] {
      ReadsFineIs(input[1..]);
    }
  }

  lemma {:induction false} JoinedTail(input: seq<Read>, n: nat)
    requires 1 <= n <= |input| && forall k | 0 <= k < n :: input[k].Data?
    ensures Joined(input, n) == input[0].bytes + Joined(input[1..], n - 1)
  {
    if n > 1 {
      JoinedTail(input, n - 1);
      Associate(input[0].bytes, Joined(input[1..], n - 2), input[n - 1].bytes);
    }
  }

  lemma {:induction false} AllBytesIs(input: seq<Read>)
    ensures AllBytes(input) == Delivered(input)
  {
    if Length(input) > 0 {
      AllBytesIs(input[1..]);
      JoinedTail(input, Length(input));
    }
  }

  // ---- one attachment ----

  function Limit(maxEmbeddedDepth: nat): (r: nat)
    ensures 1 <= r <= 8 && (1 <= maxEmbeddedDepth <= 8 ==> r == maxEmbeddedDepth)
  {
    if maxEmbeddedDepth == 0 then 1 else if maxEmbeddedDepth > 8 then 8 else maxEmbeddedDepth
  }

  function ShownName(att: Attachment): string {
    if att.name != "" then att.name
    else if att.method5 || att.declaredRfc822 then "embedded.eml"
    else "attachment.bin"
  }

  /** The stream of an attachment that has no data in memory, as opened under its message. */
  function StreamOf(nid: nat, att: Attachment, store: Store): Option<Reads> {
    if nid != 0 && !att.method5 && att.data.None? && att.streamAvailable && att.attachNid.Some? && store(nid, att.attachNid.value).Opened?
    then Some(store(nid, att.attachNid.value).input)
    else None
  }

  /** What an attachment that is no embedded message holds: its data in memory, else all its stream gives. */
  function ContentOf(nid: nat, att: Attachment, store: Store): Option<Bytes> {
    if nid != 0 && !att.method5 && att.data.Some? then att.data
    else if StreamOf(nid, att, store).Some? then Some(AllBytes(StreamOf(nid, att, store).value))
    else None
  }

  /** The embedded message is written: it was extracted, and the limit is not reached. */
  predicate GoesDown(att: Attachment, depth: nat, limit: nat) {
    att.method5 && att.embedded.Some? && !att.extractLimit && depth < limit
  }

  /** Why an attachment is not written, if it is not. */
  function FailReason(nid: nat, att: Attachment, depth: nat, limit: nat, store: Store): Option<Reason> {
    if GoesDown(att, depth, limit) || ContentOf(nid, att, store).Some? then None
    else if att.isCloudLink then Some(CloudLink)
    else if att.method5 then Some(if att.extractLimit || depth >= limit then DepthLimit else EmbeddedUnparsed)
    else if nid == 0 || !att.streamAvailable || att.attachNid.None? then Some(StreamOpenFailed)
    else
      match store(nid, att.attachNid.value)
      case Refused(Skipped(code)) => Some(code)
      case Refused(Io) => Some(StreamOpenFailed)
      case Refused(Other(namesOpening)) => Some(if namesOpening then StreamOpenFailed else Unknown)
      case Refused(PathBudget) => Some(Unknown)
      case Opened(_) => None
  }

  // ---- the tree ----

  /** What a reader of a written message finds: files, messages copied as they are, and messages with what is in them. */
  datatype View = FileView(name: string, content: Option<Bytes>) | RawView(name: string, bytes: Bytes) | MessageView(name: string, inside: seq<View>)

  /** What the attachments of message nid should be written as, in order. */
  function TreeViews(nid: nat, atts: seq<Attachment>, depth: nat, limit: nat, store: Store): seq<View>
    requires depth <= limit
    decreases limit - depth, |atts|, 1
  {
    if atts == [] then []
    else
      var n := |atts| - 1;
      TreeViews(nid, atts[..n], depth, limit, store) + AttachmentViews(nid, atts[n], depth, limit, store)
  }

  /** The children of a message whose node is not known are not written. */
  function AttachmentViews(nid: nat, att: Attachment, depth: nat, limit: nat, store: Store): seq<View>
    requires depth <= limit
    decreases limit - depth, 0, 0
  {
    if GoesDown(att, depth, limit) then
      var nested := att.embedded.value;
      [MessageView(ShownName(att),
                   if nested.sourceNid.None? then [] else TreeViews(nested.sourceNid.value, nested.children, depth + 1, limit, store))]
    else
      match ContentOf(nid, att, store)
      case None => []
      case Some(bytes) => if att.writtenRfc822 then [RawView(ShownName(att), bytes)] else [FileView(ShownName(att), Some(bytes))]
  }

  /** Every stream that is opened for the attachments, at every level, gives its bytes to the end. */
  predicate TreeReads(nid: nat, atts: seq<Attachment>, depth: nat, limit: nat, store: Store)
    requires depth <= limit
    decreases limit - depth, |atts|, 1
  {
    atts == [] ||
    var n := |atts| - 1;
    TreeReads(nid, atts[..n], depth, limit, store) && AttachmentReads(nid, atts[n], depth, limit, store)
  }

  predicate AttachmentReads(nid: nat, att: Attachment, depth: nat, limit: nat, store: Store)
    requires depth <= limit
    decreases limit - depth, 0, 0
  {
    if GoesDown(att, depth, limit) then
      att.embedded.value.sourceNid.Some? ==>
        TreeReads(att.embedded.value.sourceNid.value, att.embedded.value.children, depth + 1, limit, store)
    else StreamOf(nid, att, store).Some? ==> ReadsFine(StreamOf(nid, att, store).value)
  }

  /** The failures among a message's own attachments. */
  function OwnEvents(nid: nat, atts: seq<Attachment>, depth: nat, limit: nat, store: Store): seq<Event> {
    if atts == [] then []
    else
      var n := |atts| - 1;
      var reason := FailReason(nid, atts[n], depth, limit, store);
      OwnEvents(nid, atts[..n], depth, limit, store) + (if reason.Some? then [Event(n, ShownName(atts[n]), reason.value)] else [])
  }

  /** The children of a message whose node is not known fail one by one. */
  function OrphanEvents(children: seq<Attachment>): seq<Event> {
    seq(|children|, i requires 0 <= i < |children| =>
      Event(i, ShownName(children[i]), if children[i].isCloudLink then CloudLink else StreamOpenFailed))
  }

  /** All failures: a message's own, then those inside each message it holds. */
  function TreeEvents(nid: nat, atts: seq<Attachment>, depth: nat, limit: nat, store: Store): seq<Event>
    requires depth <= limit
    decreases limit - depth, |atts|, 3
  {
    OwnEvents(nid, atts, depth, limit, store) + InnerEvents(atts, depth, limit, store)
  }

  function InnerEvents(atts: seq<Attachment>, depth: nat, limit: nat, store: Store): seq<Event>
    requires depth <= limit
    decreases limit - depth, |atts|, 2
  {
    if atts == [] then []
    else
      var n := |atts| - 1;
      InnerEvents(atts[..n], depth, limit, store) + AttachmentEvents(atts[n], depth, limit, store)
  }

  function AttachmentEvents(att: Attachment, depth: nat, limit: nat, store: Store): seq<Event>
    requires depth <= limit
    decreases limit - depth, 0, 0
  {
    if GoesDown(att, depth, limit) then
      var nested := att.embedded.value;
      var listFlag := if nested.incomplete then [Event(0, "(nested attach list incomplete)", MetaFailed)] else [];
      if nested.sourceNid.None? then listFlag + OrphanEvents(nested.children)
      else TreeEvents(nested.sourceNid.value, nested.children, depth + 1, limit, store) + listFlag
    else []
  }

  /** Some embedded message was skipped, or copied without being parsed, at any level. */
  predicate TreeUnparsed(nid: nat, atts: seq<Attachment>, depth: nat, limit: nat, store: Store)
    requires depth <= limit
    decreases limit - depth, |atts|, 1
  {
    atts != [] &&
    var n := |atts| - 1;
    TreeUnparsed(nid, atts[..n], depth, limit, store) || AttachmentUnparsed(nid, atts[n], depth, limit, store)
  }

  predicate AttachmentUnparsed(nid: nat, att: Attachment, depth: nat, limit: nat, store: Store)
    requires depth <= limit
    decreases limit - depth, 0, 0
  {
    if GoesDown(att, depth, limit) then
      att.embedded.value.sourceNid.Some?
      && TreeUnparsed(att.embedded.value.sourceNid.value, att.embedded.value.children, depth + 1, limit, store)
    else if ContentOf(nid, att, store).Some? then att.writtenRfc822
    else att.method5 || att.declaredRfc822
  }

  // ---- reading a written message ----

  function ViewsOf(parts: seq<Part>): seq<View> {
    if parts == [] then []
    else
      var n := |parts| - 1;
      ViewsOf(parts[..n]) +
      match parts[n]
      case FilePart(name, encoded) => [FileView(name, Decoded(encoded))]
      case RawMessagePart(name, bytes) => [RawView(name, bytes)]
      case NestedPart(name, BodyOnly) => [MessageView(name, [])]
      case NestedPart(name, Mixed(inner)) => [MessageView(name, ViewsOf(inner))]
  }

  lemma ViewsAppend(parts: seq<Part>, part: Part)
    ensures ViewsOf(parts + [part]) == ViewsOf(parts) + ViewsOf([part])
    ensures ViewsOf([part]) == match part
                               case FilePart(name, encoded) => [FileView(name, Decoded(encoded))]
                               case RawMessagePart(name, bytes) => [RawView(name, bytes)]
                               case NestedPart(name, entity) => [MessageView(name, ViewsOf(PartsIn(entity)))]
  {
    assert (parts + [part])[..|parts|] == parts && [part][..0] == [];
    assert ViewsOf([]) == [];
  }

  // ---- the writer keeps to the tree ----

  lemma LimitIs(pack: Packing)
    ensures Limit(pack.maxEmbeddedDepth) == MaxDepth(pack)
  {
  }

  lemma SkipMeans(nid: nat, att: Attachment, depth: nat, pack: Packing)
    requires depth <= MaxDepth(pack)
    ensures match Prepare(nid, att, depth, pack)
            case Skip(error) => FailReason(nid, att, depth, MaxDepth(pack), pack.open) == Some(ReasonFor(att, error))
            case Ready(_) => FailReason(nid, att, depth, MaxDepth(pack), pack.open).None?
  {
  }

  lemma NestedMeans(nid: nat, att: Attachment, depth: nat, pack: Packing)
    requires depth <= MaxDepth(pack) && GoesDown(att, depth, MaxDepth(pack))
    ensures Prepare(nid, att, depth, pack) ==
            Ready(NestedMessage(ShownName(att), Inner(att.embedded.value), depth + 1, att.embedded.value.incomplete, PendingFails(att.embedded.value)))
  {
  }

  /** An attachment with content is prepared with a body that gives that content. */
  lemma BodyMeans(nid: nat, att: Attachment, depth: nat, pack: Packing) returns (body: Body)
    requires depth <= MaxDepth(pack) && !GoesDown(att, depth, MaxDepth(pack)) && ContentOf(nid, att, pack.open).Some?
    ensures Prepare(nid, att, depth, pack) ==
            Ready(if att.writtenRfc822 then RawMessage(ShownName(att), body) else FileBody(ShownName(att), body))
    ensures BodyBytes(body) == ContentOf(nid, att, pack.open).value
    ensures BodyReads(body) <==> (StreamOf(nid, att, pack.open).Some? ==> ReadsFine(StreamOf(nid, att, pack.open).value))
  {
    if att.data.Some? {
      body := Memory(att.data.value);
    } else {
      var input := StreamOf(nid, att, pack.open).value;
      body := Stream(input);
      AllBytesIs(input);
      ReadsFineIs(input);
    }
  }

  /** What is below a nested message: nothing when its node is not known, else its children under that node. */
  lemma InnerMeans(nested: Nested, pack: Packing)
    requires pack.keepAttachments
    ensures Wanted(Inner(nested), pack) == (if nested.sourceNid.None? then [] else nested.children)
    ensures nested.sourceNid.Some? ==> Inner(nested).nid == nested.sourceNid.value
  {
  }

  /** The parts are what the tree shows. */
  lemma {:induction false} PartsShow(nid: nat, atts: seq<Attachment>, depth: nat, pack: Packing)
    requires pack.keepAttachments && depth <= MaxDepth(pack)
    ensures ViewsOf(RenderParts(ReadyParts(nid, atts, depth, pack), depth, pack)) == TreeViews(nid, atts, depth, MaxDepth(pack), pack.open)
    decreases MaxDepth(pack) - depth, |atts|, 1
  {
    if atts != [] {
      var n := |atts| - 1;
      PartsShow(nid, atts[..n], depth, pack);
      AttachmentShows(nid, atts[n], depth, pack, ReadyParts(nid, atts[..n], depth, pack), ReadyParts(nid, atts, depth, pack));
    }
  }

  lemma {:induction false} AttachmentShows(nid: nat, att: Attachment, depth: nat, pack: Packing, before: seq<Prepared>, all: seq<Prepared>)
    requires pack.keepAttachments && depth <= MaxDepth(pack) && Deeper(before, depth, pack) && Deeper(all, depth, pack)
    requires all == before + (if Prepare(nid, att, depth, pack).Ready? then [Prepare(nid, att, depth, pack).part] else [])
    ensures ViewsOf(RenderParts(all, depth, pack)) ==
            ViewsOf(RenderParts(before, depth, pack)) + AttachmentViews(nid, att, depth, MaxDepth(pack), pack.open)
    decreases MaxDepth(pack) - depth, 0, 2
  {
    SkipMeans(nid, att, depth, pack);
    if Prepare(nid, att, depth, pack).Ready? {
      var part := Prepare(nid, att, depth, pack).part;
      AppendPart(before, part, depth, pack);
      ViewsAppend(RenderParts(before, depth, pack), RenderPart(part, depth, pack));
      PartShows(nid, att, depth, pack);
    } else {
      assert all == before;
    }
  }

  lemma {:induction false} PartShows(nid: nat, att: Attachment, depth: nat, pack: Packing)
    requires pack.keepAttachments && depth <= MaxDepth(pack) && Prepare(nid, att, depth, pack).Ready?
    requires Deeper([Prepare(nid, att, depth, pack).part], depth, pack)
    ensures ViewsOf([RenderPart(Prepare(nid, att, depth, pack).part, depth, pack)]) == AttachmentViews(nid, att, depth, MaxDepth(pack), pack.open)
    decreases MaxDepth(pack) - depth, 0, 1
  {
    SkipMeans(nid, att, depth, pack);
    if GoesDown(att, depth, MaxDepth(pack)) {
      NestedShows(nid, att, depth, pack);
      NestedRenders(nid, att, depth, pack);
    } else {
      ContentShows(nid, att, depth, pack);
    }
  }

  lemma NestedRenders(nid: nat, att: Attachment, depth: nat, pack: Packing)
    requires depth < MaxDepth(pack) && GoesDown(att, depth, MaxDepth(pack)) && Prepare(nid, att, depth, pack).Ready?
    requires Deeper([Prepare(nid, att, depth, pack).part], depth, pack)
    ensures RenderPart(Prepare(nid, att, depth, pack).part, depth, pack) ==
            NestedPart(ShownName(att), Render(Inner(att.embedded.value), depth + 1, pack))
  {
    NestedMeans(nid, att, depth, pack);
  }

  lemma {:induction false} NestedShows(nid: nat, att: Attachment, depth: nat, pack: Packing)
    requires pack.keepAttachments && depth < MaxDepth(pack) && GoesDown(att, depth, MaxDepth(pack))
    ensures ViewsOf([NestedPart(ShownName(att), Render(Inner(att.embedded.value), depth + 1, pack))]) ==
            AttachmentViews(nid, att, depth, MaxDepth(pack), pack.open)
    decreases MaxDepth(pack) - depth, 0, 0
  {
    MessageShows(att.embedded.value, depth + 1, pack);
    ViewsAppend([], NestedPart(ShownName(att), Render(Inner(att.embedded.value), depth + 1, pack)));
  }

  lemma ContentShows(nid: nat, att: Attachment, depth: nat, pack: Packing)
    requires depth <= MaxDepth(pack) && !GoesDown(att, depth, MaxDepth(pack)) && Prepare(nid, att, depth, pack).Ready?
    requires Deeper([Prepare(nid, att, depth, pack).part], depth, pack) && ContentOf(nid, att, pack.open).Some?
    ensures ViewsOf([RenderPart(Prepare(nid, att, depth, pack).part, depth, pack)]) == AttachmentViews(nid, att, depth, MaxDepth(pack), pack.open)
  {
    var body := BodyMeans(nid, att, depth, pack);
    ViewsAppend([], RenderPart(Prepare(nid, att, depth, pack).part, depth, pack));
    FileReadBack(BodyBytes(body));
  }

  lemma {:induction false} MessageShows(nested: Nested, depth: nat, pack: Packing)
    requires pack.keepAttachments && depth <= MaxDepth(pack)
    ensures ViewsOf(PartsIn(Render(Inner(nested), depth, pack))) ==
            if nested.sourceNid.None? then [] else TreeViews(nested.sourceNid.value, nested.children, depth, MaxDepth(pack), pack.open)
    decreases MaxDepth(pack) - depth, |nested.children|, 2
  {
    InnerMeans(nested, pack);
    if nested.sourceNid.Some? {
      PartsShow(nested.sourceNid.value, nested.children, depth, pack);
    }
  }

  /** The streams that must be read to the end are those of the tree. */
  lemma {:induction false} PartsRead(nid: nat, atts: seq<Attachment>, depth: nat, pack: Packing)
    requires pack.keepAttachments && depth <= MaxDepth(pack)
    ensures PartsReadable(ReadyParts(nid, atts, depth, pack), depth, pack) <==> TreeReads(nid, atts, depth, MaxDepth(pack), pack.open)
    decreases MaxDepth(pack) - depth, |atts|, 1
  {
    if atts != [] {
      var n := |atts| - 1;
      PartsRead(nid, atts[..n], depth, pack);
      AttachmentIsRead(nid, atts[n], depth, pack, ReadyParts(nid, atts[..n], depth, pack), ReadyParts(nid, atts, depth, pack));
    }
  }

  lemma {:induction false} AttachmentIsRead(nid: nat, att: Attachment, depth: nat, pack: Packing, before: seq<Prepared>, all: seq<Prepared>)
    requires pack.keepAttachments && depth <= MaxDepth(pack) && Deeper(before, depth, pack) && Deeper(all, depth, pack)
    requires all == before + (if Prepare(nid, att, depth, pack).Ready? then [Prepare(nid, att, depth, pack).part] else [])
    ensures PartsReadable(all, depth, pack) <==>
            PartsReadable(before, depth, pack) && AttachmentReads(nid, att, depth, MaxDepth(pack), pack.open)
    decreases MaxDepth(pack) - depth, 0, 1
  {
    SkipMeans(nid, att, depth, pack);
    if Prepare(nid, att, depth, pack).Ready? {
      assert all[..|before|] == before && all[|before|] == Prepare(nid, att, depth, pack).part;
      PartIsRead(nid, att, depth, pack);
    } else {
      assert all == before;
    }
  }

  lemma {:induction false} PartIsRead(nid: nat, att: Attachment, depth: nat, pack: Packing)
    requires pack.keepAttachments && depth <= MaxDepth(pack) && Prepare(nid, att, depth, pack).Ready?
    requires Deeper([Prepare(nid, att, depth, pack).part], depth, pack)
    ensures PartReadable(Prepare(nid, att, depth, pack).part, depth, pack) <==> AttachmentReads(nid, att, depth, MaxDepth(pack), pack.open)
    decreases MaxDepth(pack) - depth, 0, 0
  {
    SkipMeans(nid, att, depth, pack);
    if GoesDown(att, depth, MaxDepth(pack)) {
      NestedMeans(nid, att, depth, pack);
      MessageIsRead(att.embedded.value, depth + 1, pack);
    } else {
      var body := BodyMeans(nid, att, depth, pack);
    }
  }

  lemma {:induction false} MessageIsRead(nested: Nested, depth: nat, pack: Packing)
    requires pack.keepAttachments && depth <= MaxDepth(pack)
    ensures Readable(Inner(nested), depth, pack) <==>
            (nested.sourceNid.Some? ==> TreeReads(nested.sourceNid.value, nested.children, depth, MaxDepth(pack), pack.open))
    decreases MaxDepth(pack) - depth, |nested.children|, 2
  {
    InnerMeans(nested, pack);
    if nested.sourceNid.Some? {
      PartsRead(nested.sourceNid.value, nested.children, depth, pack);
    }
  }

  lemma {:induction false} OwnEventsAre(nid: nat, atts: seq<Attachment>, depth: nat, pack: Packing)
    requires depth <= MaxDepth(pack)
    ensures SoftFails(nid, atts, depth, pack) == OwnEvents(nid, atts, depth, MaxDepth(pack), pack.open)
  {
    if atts != [] {
      var n := |atts| - 1;
      OwnEventsAre(nid, atts[..n], depth, pack);
      SkipMeans(nid, atts[n], depth, pack);
    }
  }

  lemma OrphansFail(nested: Nested)
    requires nested.sourceNid.None?
    ensures PendingFails(nested) == OrphanEvents(nested.children)
  {
  }

  /** The ledger is the failures of the tree. */
  lemma {:induction false} PartsFail(nid: nat, atts: seq<Attachment>, depth: nat, pack: Packing)
    requires pack.keepAttachments && depth <= MaxDepth(pack)
    ensures PartsLedger(ReadyParts(nid, atts, depth, pack), depth, pack) == InnerEvents(atts, depth, MaxDepth(pack), pack.open)
    decreases MaxDepth(pack) - depth, |atts|, 1
  {
    if atts != [] {
      var n := |atts| - 1;
      PartsFail(nid, atts[..n], depth, pack);
      AttachmentFails(nid, atts[n], depth, pack, ReadyParts(nid, atts[..n], depth, pack), ReadyParts(nid, atts, depth, pack));
    }
  }

  lemma {:induction false} AttachmentFails(nid: nat, att: Attachment, depth: nat, pack: Packing, before: seq<Prepared>, all: seq<Prepared>)
    requires pack.keepAttachments && depth <= MaxDepth(pack) && Deeper(before, depth, pack) && Deeper(all, depth, pack)
    requires all == before + (if Prepare(nid, att, depth, pack).Ready? then [Prepare(nid, att, depth, pack).part] else [])
    ensures PartsLedger(all, depth, pack) == PartsLedger(before, depth, pack) + AttachmentEvents(att, depth, MaxDepth(pack), pack.open)
    decreases MaxDepth(pack) - depth, 0, 1
  {
    SkipMeans(nid, att, depth, pack);
    if Prepare(nid, att, depth, pack).Ready? {
      AppendPart(before, Prepare(nid, att, depth, pack).part, depth, pack);
      PartFails(nid, att, depth, pack);
    } else {
      assert all == before;
    }
  }

  lemma {:induction false} PartFails(nid: nat, att: Attachment, depth: nat, pack: Packing)
    requires pack.keepAttachments && depth <= MaxDepth(pack) && Prepare(nid, att, depth, pack).Ready?
    requires Deeper([Prepare(nid, att, depth, pack).part], depth, pack)
    ensures PartLedger(Prepare(nid, att, depth, pack).part, depth, pack) == AttachmentEvents(att, depth, MaxDepth(pack), pack.open)
    decreases MaxDepth(pack) - depth, 0, 0
  {
    SkipMeans(nid, att, depth, pack);
    if GoesDown(att, depth, MaxDepth(pack)) {
      NestedMeans(nid, att, depth, pack);
      MessageFails(att.embedded.value, depth + 1, pack);
      LedgerBelow(nid, att, depth, pack, Ledger(Inner(att.embedded.value), depth + 1, pack));
    } else {
      var body := BodyMeans(nid, att, depth, pack);
    }
  }

  lemma LedgerBelow(nid: nat, att: Attachment, depth: nat, pack: Packing, own: seq<Event>)
    requires depth <= MaxDepth(pack) && GoesDown(att, depth, MaxDepth(pack)) && Prepare(nid, att, depth, pack).Ready?
    requires var nested := att.embedded.value;
             && Prepare(nid, att, depth, pack).part ==
                NestedMessage(ShownName(att), Inner(nested), depth + 1, nested.incomplete, PendingFails(nested))
             && own == Ledger(Inner(nested), depth + 1, pack)
             && own == if nested.sourceNid.None? then [] else TreeEvents(nested.sourceNid.value, nested.children, depth + 1, MaxDepth(pack), pack.open)
    requires Deeper([Prepare(nid, att, depth, pack).part], depth, pack)
    ensures PartLedger(Prepare(nid, att, depth, pack).part, depth, pack) == AttachmentEvents(att, depth, MaxDepth(pack), pack.open)
  {
    var nested := att.embedded.value;
    LedgerOfNested(Prepare(nid, att, depth, pack).part, depth, pack, own);
    if nested.sourceNid.None? {
      OrphansFail(nested);
    } else {
      assert own + [] == own;
    }
  }

  lemma {:induction false} MessageFails(nested: Nested, depth: nat, pack: Packing)
    requires pack.keepAttachments && depth <= MaxDepth(pack)
    ensures Ledger(Inner(nested), depth, pack) ==
            if nested.sourceNid.None? then [] else TreeEvents(nested.sourceNid.value, nested.children, depth, MaxDepth(pack), pack.open)
    decreases MaxDepth(pack) - depth, |nested.children|, 2
  {
    InnerMeans(nested, pack);
    if nested.sourceNid.Some? {
      OwnEventsAre(nested.sourceNid.value, nested.children, depth, pack);
      PartsFail(nested.sourceNid.value, nested.children, depth, pack);
    }
  }

  /** The flag is that of the tree. */
  lemma {:induction false} PartsUnparsedMean(nid: nat, atts: seq<Attachment>, depth: nat, pack: Packing)
    requires pack.keepAttachments && depth <= MaxDepth(pack)
    ensures EmbeddedFails(nid, atts, depth, pack) || PartsUnparsed(ReadyParts(nid, atts, depth, pack), depth, pack) <==>
            TreeUnparsed(nid, atts, depth, MaxDepth(pack), pack.open)
    decreases MaxDepth(pack) - depth, |atts|, 1
  {
    if atts != [] {
      var n := |atts| - 1;
      PartsUnparsedMean(nid, atts[..n], depth, pack);
      AttachmentUnparsedMeans(nid, atts[n], depth, pack, ReadyParts(nid, atts[..n], depth, pack), ReadyParts(nid, atts, depth, pack));
    }
  }

  lemma {:induction false} AttachmentUnparsedMeans(nid: nat, att: Attachment, depth: nat, pack: Packing, before: seq<Prepared>, all: seq<Prepared>)
    requires pack.keepAttachments && depth <= MaxDepth(pack) && Deeper(before, depth, pack) && Deeper(all, depth, pack)
    requires all == before + (if Prepare(nid, att, depth, pack).Ready? then [Prepare(nid, att, depth, pack).part] else [])
    ensures PartsUnparsed(all, depth, pack) || (Prepare(nid, att, depth, pack).Skip? && IsEmbedded(att)) <==>
            PartsUnparsed(before, depth, pack) || AttachmentUnparsed(nid, att, depth, MaxDepth(pack), pack.open)
    decreases MaxDepth(pack) - depth, 0, 1
  {
    SkipMeans(nid, att, depth, pack);
    if Prepare(nid, att, depth, pack).Ready? {
      assert all[..|before|] == before && all[|before|] == Prepare(nid, att, depth, pack).part;
      PartUnparsedMeans(nid, att, depth, pack);
    } else {
      assert all == before;
    }
  }

  lemma {:induction false} PartUnparsedMeans(nid: nat, att: Attachment, depth: nat, pack: Packing)
    requires pack.keepAttachments && depth <= MaxDepth(pack) && Prepare(nid, att, depth, pack).Ready?
    requires Deeper([Prepare(nid, att, depth, pack).part], depth, pack)
    ensures PartUnparsed(Prepare(nid, att, depth, pack).part, depth, pack) <==> AttachmentUnparsed(nid, att, depth, MaxDepth(pack), pack.open)
    decreases MaxDepth(pack) - depth, 0, 0
  {
    SkipMeans(nid, att, depth, pack);
    if GoesDown(att, depth, MaxDepth(pack)) {
      NestedMeans(nid, att, depth, pack);
      MessageUnparsedMeans(att.embedded.value, depth + 1, pack);
    } else {
      var body := BodyMeans(nid, att, depth, pack);
    }
  }

  lemma {:induction false} MessageUnparsedMeans(nested: Nested, depth: nat, pack: Packing)
    requires pack.keepAttachments && depth <= MaxDepth(pack)
    ensures Unparsed(Inner(nested), depth, pack) <==>
            nested.sourceNid.Some? && TreeUnparsed(nested.sourceNid.value, nested.children, depth, MaxDepth(pack), pack.open)
    decreases MaxDepth(pack) - depth, |nested.children|, 2
  {
    InnerMeans(nested, pack);
    if nested.sourceNid.Some? {
      PartsUnparsedMean(nested.sourceNid.value, nested.children, depth, pack);
    }
  }

  // ---- a whole message ----

  function Files(views: seq<View>): nat {
    if views == [] then 0
    else
      var n := |views| - 1;
      Files(views[..n]) + match views[n]
                          case FileView(_, _) => 1
                          case RawView(_, _) => 0
                          case MessageView(_, inside) => Files(inside)
  }

  function Messages(views: seq<View>): nat {
    if views == [] then 0
    else
      var n := |views| - 1;
      Messages(views[..n]) + match views[n]
                             case FileView(_, _) => 0
                             case RawView(_, _) => 1
                             case MessageView(_, inside) => 1 + Messages(inside)
  }

  /** The counters count what a reader finds. */
  lemma {:induction false} CountsShow(parts: seq<Part>)
    ensures CountFiles(parts) == Files(ViewsOf(parts)) && CountMessages(parts) == Messages(ViewsOf(parts))
  {
    if parts != [] {
      var n := |parts| - 1;
      CountsShow(parts[..n]);
      assert parts[n] in parts;
      var views := ViewsOf(parts[..n]);
      match parts[n]
      case FilePart(name, encoded) =>
        assert (views + [FileView(name, Decoded(encoded))])[..|views|] == views;
      case RawMessagePart(name, bytes) =>
        assert (views + [RawView(name, bytes)])[..|views|] == views;
      case NestedPart(name, BodyOnly) =>
        assert (views + [MessageView(name, [])])[..|views|] == views;
      case NestedPart(name, Mixed(inner)) =>
        CountsShow(inner);
        assert (views + [MessageView(name, ViewsOf(inner))])[..|views|] == views;
    }
  }

  /**
   The entry point, at depth 0. It fails exactly when a stream of the tree breaks off. Otherwise a reader finds what the
   tree holds, with every byte the store gives; every failure is recorded, with its reason; the counters add up to the
   reachable attachments; and nesting stays within the clamped limit. Without attachments to keep, nothing is attached.
   */
  method WriteCanonicalEml(msg: Message, pack: Packing) returns (entity: Option<Entity>, result: WriteResult)
    ensures var atts, limit := if pack.keepAttachments then msg.attachments else [], Limit(pack.maxEmbeddedDepth);
            && (entity.Some? <==> TreeReads(msg.nid, atts, 0, limit, pack.open))
            && (entity.Some? ==>
                  var views := TreeViews(msg.nid, atts, 0, limit, pack.open);
                  && ViewsOf(PartsIn(entity.value)) == views && (entity.value.Mixed? <==> views != [])
                  && result.events == TreeEvents(msg.nid, atts, 0, limit, pack.open) && result.failed == |result.events|
                  && result.files == Files(views) && result.embedded == Messages(views)
                  && (result.unparsed <==> TreeUnparsed(msg.nid, atts, 0, limit, pack.open))
                  && result.files + result.embedded + result.failed == Reachable(atts, 0, pack)
                  && Height(PartsIn(entity.value)) <= limit && NoneEmpty(PartsIn(entity.value)))
  {
    LimitIs(pack);
    entity, result := WriteMessage(msg, 0, pack);
    Conserves(msg, 0, pack);
    StaysWithinDepth(msg, 0, pack);
    TreeKept(msg, pack);
    CountsShow(PartsIn(Render(msg, 0, pack)));
  }

  lemma TreeKept(msg: Message, pack: Packing)
    ensures var atts := Wanted(msg, pack);
            && (Readable(msg, 0, pack) <==> TreeReads(msg.nid, atts, 0, MaxDepth(pack), pack.open))
            && ViewsOf(PartsIn(Render(msg, 0, pack))) == TreeViews(msg.nid, atts, 0, MaxDepth(pack), pack.open)
            && Ledger(msg, 0, pack) == TreeEvents(msg.nid, atts, 0, MaxDepth(pack), pack.open)
            && (Unparsed(msg, 0, pack) <==> TreeUnparsed(msg.nid, atts, 0, MaxDepth(pack), pack.open))
  {
    if pack.keepAttachments {
      PartsShow(msg.nid, msg.attachments, 0, pack);
      PartsRead(msg.nid, msg.attachments, 0, pack);
      OwnEventsAre(msg.nid, msg.attachments, 0, pack);
      PartsFail(msg.nid, msg.attachments, 0, pack);
      PartsUnparsedMean(msg.nid, msg.attachments, 0, pack);
    }
  }
}
