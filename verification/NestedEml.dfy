/** Writing a message with its attachments and nested messages, and the account of what was written (eml_pack.rs). */
module NestedEml {
  import opened Common
  import opened Base64
  import opened Base64Decoding

  // ---- messages ----

  /** An attachment row; `declaredRfc822` and `writtenRfc822` say whether the MIME type names a message before and after header cleaning. */
  datatype Attachment = Attachment(
    name: string, method5: bool, extractLimit: bool, embedded: Option<Nested>, declaredRfc822: bool, writtenRfc822: bool,
    data: Option<Bytes>, streamAvailable: bool, attachNid: Option<nat>, isCloudLink: bool)

  /** A nested message as extracted, with the node its children's streams are opened under. */
  datatype Nested = Nested(sourceNid: Option<nat>, children: seq<Attachment>, incomplete: bool)

  datatype Message = Message(nid: nat, attachments: seq<Attachment>)

  /** The reads a stream gives; the copy loop asks for at most 3072 bytes at a time. */
  type Reads = s: seq<Read> | forall k | 0 <= k < |s| && s[k].Data? :: |s[k].bytes| <= 3072 witness []

  datatype SoftError = Io | Skipped(code: Reason) | Other(namesOpening: bool) | PathBudget

  datatype Reason = CloudLink | StreamOpenFailed | DepthLimit | EmbeddedUnparsed | MetaFailed | Unknown

  datatype Opening = Opened(input: Reads) | Refused(error: SoftError)

  /** Options and the attachment store; node 0 stands for no node. */
  datatype Packing = Packing(keepAttachments: bool, maxEmbeddedDepth: nat, open: (nat, nat) -> Opening)

  function MaxDepth(pack: Packing): (r: nat)
    ensures 1 <= r <= 8
  {
    if pack.maxEmbeddedDepth < 1 then 1 else if pack.maxEmbeddedDepth > 8 then 8 else pack.maxEmbeddedDepth
  }

  predicate IsEmbedded(att: Attachment) {
    att.method5 || att.declaredRfc822
  }

  function NameOf(att: Attachment): string {
    if att.name != "" then att.name else if IsEmbedded(att) then "embedded.eml" else "attachment.bin"
  }

  // ---- what is written ----

  datatype Part = FilePart(name: string, encoded: Bytes) | RawMessagePart(name: string, bytes: Bytes) | NestedPart(name: string, entity: Entity)

  datatype Entity = BodyOnly | Mixed(parts: seq<Part>)

  datatype Event = Event(index: nat, name: string, reason: Reason)

  datatype WriteResult = WriteResult(files: nat, embedded: nat, failed: nat, unparsed: bool, events: seq<Event>)

  function ReasonFor(att: Attachment, error: SoftError): Reason {
    if att.isCloudLink then CloudLink
    else
      match error
      case Io => StreamOpenFailed
      case Skipped(code) => code
      case Other(namesOpening) => if namesOpening then StreamOpenFailed else Unknown
      case PathBudget => Unknown
  }

  function EventFor(index: nat, att: Attachment, error: SoftError): Event {
    Event(index, NameOf(att), ReasonFor(att, error))
  }

  const LIST_INCOMPLETE := Event(0, "(nested attach list incomplete)", MetaFailed)

  // ---- preparing one attachment ----

  datatype Body = Memory(data: Bytes) | Stream(input: Reads)

  datatype Prepared =
    | FileBody(name: string, body: Body)
    | RawMessage(name: string, body: Body)
    | NestedMessage(name: string, msg: Message, writeDepth: nat, incomplete: bool, pendingFails: seq<Event>)

  datatype Attempt = Ready(part: Prepared) | Skip(error: SoftError)

  /** Whether an attachment is written as a nested message at this depth. */
  predicate Descends(att: Attachment, depth: nat, pack: Packing) {
    att.method5 && !att.extractLimit && depth < MaxDepth(pack) && att.embedded.Some?
  }

  /** Children of a nested message whose node is not known cannot be opened: each fails and none is written. */
  predicate Orphaned(nested: Nested) {
    nested.sourceNid.None? && nested.children != []
  }

  function Inner(nested: Nested): Message {
    Message(if nested.sourceNid.Some? then nested.sourceNid.value else 0, if Orphaned(nested) then [] else nested.children)
  }

  function PendingFails(nested: Nested): seq<Event> {
    if Orphaned(nested) then
      seq(|nested.children|, i requires 0 <= i < |nested.children| => EventFor(i, nested.children[i], Other(true)))
    else []
  }

  function Prepare(nid: nat, att: Attachment, depth: nat, pack: Packing): Attempt {
    if att.method5 then
      if att.extractLimit || depth >= MaxDepth(pack) then Skip(Skipped(DepthLimit))
      else if att.embedded.Some? then
        var nested := att.embedded.value;
        Ready(NestedMessage(NameOf(att), Inner(nested), depth + 1, nested.incomplete, PendingFails(nested)))
      else Skip(Skipped(EmbeddedUnparsed))
    else if nid == 0 then Skip(Other(true))
    else if att.data.Some? then Ready(WithBody(att, Memory(att.data.value)))
    else if !att.streamAvailable || att.attachNid.None? then Skip(Other(true))
    else
      match pack.open(nid, att.attachNid.value)
      case Opened(input) => Ready(WithBody(att, Stream(input)))
      case Refused(error) => Skip(error)
  }

  function WithBody(att: Attachment, body: Body): Prepared {
    if att.writtenRfc822 then RawMessage(NameOf(att), body) else FileBody(NameOf(att), body)
  }

  // ---- the account to be kept ----

  function ReadyParts(nid: nat, atts: seq<Attachment>, depth: nat, pack: Packing): (r: seq<Prepared>)
    ensures Deeper(r, depth, pack)
  {
    if atts == [] then []
    else
      var n := |atts| - 1;
      var attempt := Prepare(nid, atts[n], depth, pack);
      ReadyParts(nid, atts[..n], depth, pack) + (if attempt.Ready? then [attempt.part] else [])
  }

  /** Nested messages are written exactly one level further down, and never below the limit. */
  predicate Deeper(parts: seq<Prepared>, depth: nat, pack: Packing) {
    forall k | 0 <= k < |parts| && parts[k].NestedMessage? :: parts[k].writeDepth == depth + 1 <= MaxDepth(pack)
  }

  function SoftFails(nid: nat, atts: seq<Attachment>, depth: nat, pack: Packing): seq<Event> {
    if atts == [] then []
    else
      var n := |atts| - 1;
      var attempt := Prepare(nid, atts[n], depth, pack);
      SoftFails(nid, atts[..n], depth, pack) + (if attempt.Skip? then [EventFor(n, atts[n], attempt.error)] else [])
  }

  predicate EmbeddedFails(nid: nat, atts: seq<Attachment>, depth: nat, pack: Packing) {
    atts != [] &&
    var n := |atts| - 1;
    EmbeddedFails(nid, atts[..n], depth, pack) || (Prepare(nid, atts[n], depth, pack).Skip? && IsEmbedded(atts[n]))
  }

  function BodyBytes(body: Body): Bytes {
    match body
    case Memory(data) => data
    case Stream(input) => Delivered(input)
  }

  predicate BodyReads(body: Body) {
    body.Memory? || Succeeds(body.input)
  }

  /** What is attempted for a message: nothing unless attachments are kept. */
  function Wanted(msg: Message, pack: Packing): seq<Attachment> {
    if pack.keepAttachments then msg.attachments else []
  }

  function PartsOf(msg: Message, depth: nat, pack: Packing): (r: seq<Prepared>)
    ensures Deeper(r, depth, pack)
  {
    ReadyParts(msg.nid, Wanted(msg, pack), depth, pack)
  }

  /** The MIME entity of a message: no multipart unless some part was prepared. */
  function Render(msg: Message, depth: nat, pack: Packing): Entity
    requires depth <= MaxDepth(pack)
    decreases MaxDepth(pack) - depth, 2, 0
  {
    var parts := PartsOf(msg, depth, pack);
    if parts == [] then BodyOnly else Mixed(RenderParts(parts, depth, pack))
  }

  function RenderParts(parts: seq<Prepared>, depth: nat, pack: Packing): (r: seq<Part>)
    requires depth <= MaxDepth(pack) && Deeper(parts, depth, pack)
    ensures |r| == |parts|
    decreases MaxDepth(pack) - depth, 1, |parts|
  {
    if parts == [] then [] else RenderParts(parts[..|parts| - 1], depth, pack) + [RenderPart(parts[|parts| - 1], depth, pack)]
  }

  function RenderPart(part: Prepared, depth: nat, pack: Packing): Part
    requires depth <= MaxDepth(pack) && Deeper([part], depth, pack)
    decreases MaxDepth(pack) - depth, 0, 0
  {
    match part
    case FileBody(name, body) => FilePart(name, Wrap(Encode(BodyBytes(body))))
    case RawMessage(name, body) => RawMessagePart(name, BodyBytes(body))
    case NestedMessage(name, msg, writeDepth, _, _) =>
      assert [part][0].writeDepth == depth + 1 <= MaxDepth(pack);
      NestedPart(name, Render(msg, writeDepth, pack))
  }

  /** The ledger of failures: a message's own first, then what happened inside each nested message, in part order. */
  function Ledger(msg: Message, depth: nat, pack: Packing): seq<Event>
    requires depth <= MaxDepth(pack)
    decreases MaxDepth(pack) - depth, 2, 0
  {
    SoftFails(msg.nid, Wanted(msg, pack), depth, pack) + PartsLedger(PartsOf(msg, depth, pack), depth, pack)
  }

  function PartsLedger(parts: seq<Prepared>, depth: nat, pack: Packing): seq<Event>
    requires depth <= MaxDepth(pack) && Deeper(parts, depth, pack)
    decreases MaxDepth(pack) - depth, 1, |parts|
  {
    if parts == [] then [] else PartsLedger(parts[..|parts| - 1], depth, pack) + PartLedger(parts[|parts| - 1], depth, pack)
  }

  function PartLedger(part: Prepared, depth: nat, pack: Packing): seq<Event>
    requires depth <= MaxDepth(pack) && Deeper([part], depth, pack)
    decreases MaxDepth(pack) - depth, 0, 0
  {
    if part.NestedMessage? then
      assert [part][0].writeDepth == depth + 1 <= MaxDepth(pack);
      Ledger(part.msg, part.writeDepth, pack)
      + (if part.incomplete then [LIST_INCOMPLETE] else []) + part.pendingFails
    else []
  }

  /** Whether every stream that is opened can be read to its end; otherwise the whole write fails. */
  predicate Readable(msg: Message, depth: nat, pack: Packing)
    requires depth <= MaxDepth(pack)
    decreases MaxDepth(pack) - depth, 2, 0
  {
    PartsReadable(PartsOf(msg, depth, pack), depth, pack)
  }

  predicate PartsReadable(parts: seq<Prepared>, depth: nat, pack: Packing)
    requires depth <= MaxDepth(pack) && Deeper(parts, depth, pack)
    decreases MaxDepth(pack) - depth, 1, |parts|
  {
    parts == [] || (PartsReadable(parts[..|parts| - 1], depth, pack) && PartReadable(parts[|parts| - 1], depth, pack))
  }

  predicate PartReadable(part: Prepared, depth: nat, pack: Packing)
    requires depth <= MaxDepth(pack) && Deeper([part], depth, pack)
    decreases MaxDepth(pack) - depth, 0, 0
  {
    if part.NestedMessage? then
      assert [part][0].writeDepth == depth + 1 <= MaxDepth(pack);
      Readable(part.msg, part.writeDepth, pack)
    else BodyReads(part.body)
  }

  /** The flag for embedded messages that were skipped or copied without being parsed. */
  predicate Unparsed(msg: Message, depth: nat, pack: Packing)
    requires depth <= MaxDepth(pack)
    decreases MaxDepth(pack) - depth, 2, 0
  {
    EmbeddedFails(msg.nid, Wanted(msg, pack), depth, pack) || PartsUnparsed(PartsOf(msg, depth, pack), depth, pack)
  }

  predicate PartsUnparsed(parts: seq<Prepared>, depth: nat, pack: Packing)
    requires depth <= MaxDepth(pack) && Deeper(parts, depth, pack)
    decreases MaxDepth(pack) - depth, 1, |parts|
  {
    parts != [] && (PartsUnparsed(parts[..|parts| - 1], depth, pack) || PartUnparsed(parts[|parts| - 1], depth, pack))
  }

  predicate PartUnparsed(part: Prepared, depth: nat, pack: Packing)
    requires depth <= MaxDepth(pack) && Deeper([part], depth, pack)
    decreases MaxDepth(pack) - depth, 0, 0
  {
    if part.NestedMessage? then
      assert [part][0].writeDepth == depth + 1 <= MaxDepth(pack);
      Unparsed(part.msg, part.writeDepth, pack)
    else part.RawMessage?
  }

  // ---- counting what an entity holds ----

  function PartsIn(entity: Entity): seq<Part> {
    if entity.Mixed? then entity.parts else []
  }

  function CountFiles(parts: seq<Part>): nat {
    if parts == [] then 0
    else
      var n := |parts| - 1;
      CountFiles(parts[..n]) +
      match parts[n]
      case FilePart(_, _) => 1
      case RawMessagePart(_, _) => 0
      case NestedPart(_, BodyOnly) => 0
      case NestedPart(_, Mixed(inner)) => CountFiles(inner)
  }

  function CountMessages(parts: seq<Part>): nat {
    if parts == [] then 0
    else
      var n := |parts| - 1;
      CountMessages(parts[..n]) +
      match parts[n]
      case FilePart(_, _) => 0
      case RawMessagePart(_, _) => 1
      case NestedPart(_, BodyOnly) => 1
      case NestedPart(_, Mixed(inner)) => 1 + CountMessages(inner)
  }

  lemma CountAppend(parts: seq<Part>, part: Part)
    ensures CountFiles(parts + [part]) ==
            CountFiles(parts) + if part.FilePart? then 1 else if part.NestedPart? then CountFiles(PartsIn(part.entity)) else 0
    ensures CountMessages(parts + [part]) ==
            CountMessages(parts) + if part.FilePart? then 0 else if part.NestedPart? then 1 + CountMessages(PartsIn(part.entity)) else 1
  {
    assert (parts + [part])[..|parts|] == parts;
  }

  // ---- the writer ----

  /** What the counters and events must be once the parts before k are written. */
  ghost predicate Tallies(result: WriteResult, parts: seq<Part>, msg: Message, prepared: seq<Prepared>, depth: nat, pack: Packing)
    requires depth <= MaxDepth(pack) && Deeper(prepared, depth, pack)
  {
    && result.files == CountFiles(parts) && result.embedded == CountMessages(parts)
    && result.failed == |result.events|
    && result.events == SoftFails(msg.nid, Wanted(msg, pack), depth, pack) + PartsLedger(prepared, depth, pack)
    && (result.unparsed <==> EmbeddedFails(msg.nid, Wanted(msg, pack), depth, pack) || PartsUnparsed(prepared, depth, pack))
  }

  /** Every attachment that opens becomes a part; every other one is counted and recorded once. */
  method PrepareAttachments(msg: Message, depth: nat, pack: Packing) returns (prepared: seq<Prepared>, result: WriteResult)
    ensures prepared == ReadyParts(msg.nid, msg.attachments, depth, pack)
    ensures result.files == 0 && result.embedded == 0 && result.failed == |result.events|
    ensures result.events == SoftFails(msg.nid, msg.attachments, depth, pack)
    ensures result.unparsed <==> EmbeddedFails(msg.nid, msg.attachments, depth, pack)
  {
    prepared, result := [], WriteResult(0, 0, 0, false, []);
    var atts := msg.attachments;
    for idx := 0 to |atts|
      invariant prepared == ReadyParts(msg.nid, atts[..idx], depth, pack)
      invariant result.files == 0 && result.embedded == 0 && result.failed == |result.events|
      invariant result.events == SoftFails(msg.nid, atts[..idx], depth, pack)
      invariant result.unparsed <==> EmbeddedFails(msg.nid, atts[..idx], depth, pack)
    {
      assert atts[..idx + 1][..idx] == atts[..idx];
      var attempt := Prepare(msg.nid, atts[idx], depth, pack);
      if attempt.Ready? {
        prepared := prepared + [attempt.part];
      } else {
        result := result.(failed := result.failed + 1, events := result.events + [EventFor(idx, atts[idx], attempt.error)],
                          unparsed := result.unparsed || IsEmbedded(atts[idx]));
      }
    }
    assert atts[..|atts|] == atts;
  }

  /** The account has grown by one part, what failed inside it, and whether something there was not parsed. */
  ghost predicate Grown(result: WriteResult, newResult: WriteResult, part: Part, ledger: seq<Event>, unparsed: bool) {
    && newResult.files == result.files + CountFiles([part]) && newResult.embedded == result.embedded + CountMessages([part])
    && newResult.events == result.events + ledger && newResult.failed == result.failed + |ledger|
    && (newResult.unparsed <==> result.unparsed || unparsed)
  }

  lemma FileGrown(result: WriteResult, name: string, encoded: Bytes)
    ensures Grown(result, result.(files := result.files + 1), FilePart(name, encoded), [], false)
  {
    CountAlone(FilePart(name, encoded));
  }

  lemma RawGrown(result: WriteResult, name: string, bytes: Bytes)
    ensures Grown(result, result.(embedded := result.embedded + 1, unparsed := true), RawMessagePart(name, bytes), [], true)
  {
    CountAlone(RawMessagePart(name, bytes));
  }

  lemma NestedGrown(result: WriteResult, inner: WriteResult, name: string, entity: Entity, newResult: WriteResult)
    requires inner.files == CountFiles(PartsIn(entity)) && inner.embedded == CountMessages(PartsIn(entity))
    requires inner.failed == |inner.events|
    requires newResult == WriteResult(result.files + inner.files, result.embedded + 1 + inner.embedded, result.failed + inner.failed,
                                      result.unparsed || inner.unparsed, result.events + inner.events)
    ensures Grown(result, newResult, NestedPart(name, entity), inner.events, inner.unparsed)
  {
    CountAlone(NestedPart(name, entity));
  }

  lemma LedgerOfNested(part: Prepared, depth: nat, pack: Packing, own: seq<Event>)
    requires depth <= MaxDepth(pack) && Deeper([part], depth, pack) && part.NestedMessage? && part.writeDepth <= MaxDepth(pack)
    requires own == Ledger(part.msg, part.writeDepth, pack)
    ensures PartLedger(part, depth, pack) == (if part.incomplete then own + [LIST_INCOMPLETE] else own) + part.pendingFails
  {
    assert own + [] == own;
  }

  method WritePart(part: Prepared, depth: nat, pack: Packing, result: WriteResult)
    returns (written: Option<Part>, newResult: WriteResult)
    requires depth <= MaxDepth(pack) && Deeper([part], depth, pack)
    ensures written.Some? <==> PartReadable(part, depth, pack)
    ensures written.Some? ==>
              && written.value == RenderPart(part, depth, pack)
              && Grown(result, newResult, written.value, PartLedger(part, depth, pack), PartUnparsed(part, depth, pack))
    decreases MaxDepth(pack) - depth, 0
  {
    newResult := result;
    match part
    case FileBody(name, Memory(data)) =>
      var encoded := EncodeChunked(data);
      written, newResult := Some(FilePart(name, encoded)), result.(files := result.files + 1);
      FileGrown(result, name, encoded);
    case FileBody(name, Stream(input)) =>
      var ok, encoded := StreamBase64(input);
      if !ok {
        return None, result;
      }
      written, newResult := Some(FilePart(name, encoded)), result.(files := result.files + 1);
      FileGrown(result, name, encoded);
    case RawMessage(name, body) =>
      if !BodyReads(body) {
        return None, result;
      }
      written := Some(RawMessagePart(name, BodyBytes(body)));
      newResult := result.(embedded := result.embedded + 1, unparsed := true);
      RawGrown(result, name, BodyBytes(body));
    case NestedMessage(name, msg, writeDepth, incomplete, pendingFails) =>
      assert [part][0].writeDepth == depth + 1 <= MaxDepth(pack);
      var entity, inner := WriteMessage(msg, writeDepth, pack);
      if entity.None? {
        return None, result;
      }
      LedgerOfNested(part, depth, pack, inner.events);
      if incomplete {
        inner := inner.(failed := inner.failed + 1, events := inner.events + [LIST_INCOMPLETE]);
      }
      inner := inner.(failed := inner.failed + |pendingFails|, events := inner.events + pendingFails);
      written := Some(NestedPart(name, entity.value));
      newResult := WriteResult(result.files + inner.files, result.embedded + 1 + inner.embedded, result.failed + inner.failed,
                               result.unparsed || inner.unparsed, result.events + inner.events);
      NestedGrown(result, inner, name, entity.value, newResult);
  }

  /** One part written after the others, and the account brought up to date. */
  lemma PartTallied(result: WriteResult, parts: seq<Part>, msg: Message, prepared: seq<Prepared>, k: nat, depth: nat, pack: Packing,
                    part: Part, newResult: WriteResult)
    requires depth <= MaxDepth(pack) && k < |prepared| && Deeper(prepared, depth, pack) && Deeper(prepared[..k], depth, pack)
    requires Tallies(result, parts, msg, prepared[..k], depth, pack) && Deeper([prepared[k]], depth, pack)
    requires Grown(result, newResult, part, PartLedger(prepared[k], depth, pack), PartUnparsed(prepared[k], depth, pack))
    ensures Tallies(newResult, parts + [part], msg, prepared[..k + 1], depth, pack)
  {
    CountOne(parts, part);
    NextOf(prepared, k, depth, pack);
    Regroup(SoftFails(msg.nid, Wanted(msg, pack), depth, pack), PartsLedger(prepared[..k], depth, pack), PartLedger(prepared[k], depth, pack));
  }

  lemma Regroup(a: seq<Event>, b: seq<Event>, c: seq<Event>)
    ensures (a + b) + c == a + (b + c)
  {
  }

  lemma NextOf(prepared: seq<Prepared>, k: nat, depth: nat, pack: Packing)
    requires depth <= MaxDepth(pack) && k < |prepared| && Deeper(prepared, depth, pack)
    requires Deeper(prepared[..k], depth, pack) && Deeper([prepared[k]], depth, pack)
    ensures Deeper(prepared[..k + 1], depth, pack)
    ensures PartsLedger(prepared[..k + 1], depth, pack) == PartsLedger(prepared[..k], depth, pack) + PartLedger(prepared[k], depth, pack)
    ensures PartsUnparsed(prepared[..k + 1], depth, pack) <==>
            PartsUnparsed(prepared[..k], depth, pack) || PartUnparsed(prepared[k], depth, pack)
  {
    assert prepared[..k + 1][..k] == prepared[..k];
  }

  method WriteParts(msg: Message, prepared: seq<Prepared>, depth: nat, pack: Packing, start: WriteResult)
    returns (parts: Option<seq<Part>>, result: WriteResult)
    requires depth <= MaxDepth(pack) && Deeper(prepared, depth, pack) && Tallies(start, [], msg, [], depth, pack)
    ensures parts.Some? <==> PartsReadable(prepared, depth, pack)
    ensures parts.Some? ==> parts.value == RenderParts(prepared, depth, pack)
    ensures parts.Some? ==> Tallies(result, parts.value, msg, prepared, depth, pack)
    decreases MaxDepth(pack) - depth, 1
  {
    var done: seq<Part> := [];
    result := start;
    var k := 0;
    assert prepared[..0] == [];
    while k < |prepared|
      invariant 0 <= k <= |prepared| && Deeper(prepared[..k], depth, pack)
      invariant PartsReadable(prepared[..k], depth, pack) && done == RenderParts(prepared[..k], depth, pack)
      invariant Tallies(result, done, msg, prepared[..k], depth, pack)
    {
      assert prepared[..k + 1][..k] == prepared[..k] && Deeper(prepared[..k + 1], depth, pack);
      assert Deeper([prepared[k]], depth, pack);
      var part, next := WritePart(prepared[k], depth, pack, result);
      if part.None? {
        UnreadablePart(prepared, k, depth, pack);
        return None, next;
      }
      PartTallied(result, done, msg, prepared, k, depth, pack, part.value, next);
      done, result, k := done + [part.value], next, k + 1;
    }
    assert prepared[..k] == prepared;
    parts := Some(done);
  }

  /** Writing one message: the whole entity and its exact account, or nothing when a stream breaks off. */
  method WriteMessage(msg: Message, depth: nat, pack: Packing) returns (entity: Option<Entity>, result: WriteResult)
    requires depth <= MaxDepth(pack)
    ensures entity.Some? <==> Readable(msg, depth, pack)
    ensures entity.Some? ==>
              && entity.value == Render(msg, depth, pack)
              && result.files == CountFiles(PartsIn(entity.value)) && result.embedded == CountMessages(PartsIn(entity.value))
              && result.failed == |result.events| && result.events == Ledger(msg, depth, pack)
              && (result.unparsed <==> Unparsed(msg, depth, pack))
    decreases MaxDepth(pack) - depth, 2
  {
    if !pack.keepAttachments || msg.attachments == [] {
      return Some(BodyOnly), WriteResult(0, 0, 0, false, []);
    }
    var prepared;
    prepared, result := PrepareAttachments(msg, depth, pack);
    var parts;
    parts, result := WriteParts(msg, prepared, depth, pack, result);
    if parts.None? {
      return None, result;
    }
    entity := Some(if prepared == [] then BodyOnly else Mixed(parts.value));
  }

  lemma CountOne(parts: seq<Part>, part: Part)
    ensures CountFiles(parts + [part]) == CountFiles(parts) + CountFiles([part])
    ensures CountMessages(parts + [part]) == CountMessages(parts) + CountMessages([part])
  {
    CountAppend(parts, part);
    CountAlone(part);
  }

  lemma CountAlone(part: Part)
    ensures CountFiles([part]) == if part.FilePart? then 1 else if part.NestedPart? then CountFiles(PartsIn(part.entity)) else 0
    ensures CountMessages([part]) == if part.FilePart? then 0 else if part.NestedPart? then 1 + CountMessages(PartsIn(part.entity)) else 1
  {
    CountAppend([], part);
    assert [] + [part] == [part];
  }

  lemma {:induction false} UnreadablePart(parts: seq<Prepared>, k: nat, depth: nat, pack: Packing)
    requires depth <= MaxDepth(pack) && Deeper(parts, depth, pack) && k < |parts| && Deeper([parts[k]], depth, pack)
    requires !PartReadable(parts[k], depth, pack)
    ensures !PartsReadable(parts, depth, pack)
  {
    var n := |parts| - 1;
    if k < n {
      UnreadablePart(parts[..n], k, depth, pack);
    }
  }

  // ---- conservation ----

  /**
   The attachments a write can reach, one each, and one more for every nested list flagged incomplete. Below a nested
   message that is written its children are reached too; below any other attachment nothing is.
   */
  function Reachable(atts: seq<Attachment>, depth: nat, pack: Packing): nat
    requires depth <= MaxDepth(pack)
    decreases MaxDepth(pack) - depth, |atts|, 1
  {
    if atts == [] then 0 else Reachable(atts[..|atts| - 1], depth, pack) + ReachableFrom(atts[|atts| - 1], depth, pack)
  }

  function ReachableFrom(att: Attachment, depth: nat, pack: Packing): nat
    requires depth <= MaxDepth(pack)
    decreases MaxDepth(pack) - depth, 0, 0
  {
    if Descends(att, depth, pack) then
      var nested := att.embedded.value;
      1 + (if nested.incomplete then 1 else 0)
      + (if Orphaned(nested) then |nested.children| else Reachable(nested.children, depth + 1, pack))
    else 1
  }

  /** What a write did with attachments: files, messages and failures together. */
  function Handled(parts: seq<Part>, events: seq<Event>): nat {
    CountFiles(parts) + CountMessages(parts) + |events|
  }

  /** Conservation: every reachable attachment is written once or fails once, and nothing else is counted. */
  lemma {:induction false} Conserves(msg: Message, depth: nat, pack: Packing)
    requires depth <= MaxDepth(pack)
    ensures Handled(PartsIn(Render(msg, depth, pack)), Ledger(msg, depth, pack)) == Reachable(Wanted(msg, pack), depth, pack)
    decreases MaxDepth(pack) - depth, 2, 0
  {
    ConservesParts(msg.nid, Wanted(msg, pack), depth, pack);
  }

  /** What a write does with these attachments of one message. */
  function HandledOf(nid: nat, atts: seq<Attachment>, depth: nat, pack: Packing): nat
    requires depth <= MaxDepth(pack)
  {
    var prepared := ReadyParts(nid, atts, depth, pack);
    Handled(RenderParts(prepared, depth, pack), SoftFails(nid, atts, depth, pack) + PartsLedger(prepared, depth, pack))
  }

  lemma {:induction false} ConservesParts(nid: nat, atts: seq<Attachment>, depth: nat, pack: Packing)
    requires depth <= MaxDepth(pack) && (atts != [] ==> pack.keepAttachments)
    ensures HandledOf(nid, atts, depth, pack) == Reachable(atts, depth, pack)
    decreases MaxDepth(pack) - depth, 1, |atts|
  {
    if atts != [] {
      var n := |atts| - 1;
      ConservesParts(nid, atts[..n], depth, pack);
      if Prepare(nid, atts[n], depth, pack).Ready? {
        HandledReady(nid, atts, depth, pack);
        PartConserves(nid, atts[n], depth, pack);
      } else {
        HandledSkip(nid, atts, depth, pack);
      }
    }
  }

  lemma HandledReady(nid: nat, atts: seq<Attachment>, depth: nat, pack: Packing)
    requires depth <= MaxDepth(pack) && atts != [] && Prepare(nid, atts[|atts| - 1], depth, pack).Ready?
    ensures var n := |atts| - 1;
            var part := Prepare(nid, atts[n], depth, pack).part;
            && Deeper([part], depth, pack)
            && HandledOf(nid, atts, depth, pack) ==
               HandledOf(nid, atts[..n], depth, pack) + Handled([RenderPart(part, depth, pack)], PartLedger(part, depth, pack))
  {
    var n := |atts| - 1;
    var part, before := Prepare(nid, atts[n], depth, pack).part, ReadyParts(nid, atts[..n], depth, pack);
    AppendPart(before, part, depth, pack);
    HandledAppend(RenderParts(before, depth, pack), RenderPart(part, depth, pack),
                  SoftFails(nid, atts[..n], depth, pack), PartsLedger(before, depth, pack), PartLedger(part, depth, pack));
  }

  lemma HandledSkip(nid: nat, atts: seq<Attachment>, depth: nat, pack: Packing)
    requires depth <= MaxDepth(pack) && atts != [] && Prepare(nid, atts[|atts| - 1], depth, pack).Skip?
    ensures HandledOf(nid, atts, depth, pack) == HandledOf(nid, atts[..|atts| - 1], depth, pack) + 1
    ensures ReachableFrom(atts[|atts| - 1], depth, pack) == 1
  {
    var before := ReadyParts(nid, atts[..|atts| - 1], depth, pack);
    assert before + [] == before;
  }

  lemma AppendPart(before: seq<Prepared>, part: Prepared, depth: nat, pack: Packing)
    requires depth <= MaxDepth(pack) && Deeper(before, depth, pack) && Deeper(before + [part], depth, pack)
    ensures Deeper([part], depth, pack)
    ensures RenderParts(before + [part], depth, pack) == RenderParts(before, depth, pack) + [RenderPart(part, depth, pack)]
    ensures PartsLedger(before + [part], depth, pack) == PartsLedger(before, depth, pack) + PartLedger(part, depth, pack)
  {
    assert (before + [part])[..|before|] == before && (before + [part])[|before|] == part;
  }

  lemma HandledAppend(parts: seq<Part>, part: Part, fails: seq<Event>, events: seq<Event>, more: seq<Event>)
    ensures Handled(parts + [part], fails + (events + more)) == Handled(parts, fails + events) + Handled([part], more)
  {
    CountOne(parts, part);
  }

  /** One attachment that is written, with everything below it. */
  lemma {:induction false} PartConserves(nid: nat, att: Attachment, depth: nat, pack: Packing)
    requires depth <= MaxDepth(pack) && pack.keepAttachments && Prepare(nid, att, depth, pack).Ready?
    requires Deeper([Prepare(nid, att, depth, pack).part], depth, pack)
    ensures var part := Prepare(nid, att, depth, pack).part;
            Handled([RenderPart(part, depth, pack)], PartLedger(part, depth, pack)) == ReachableFrom(att, depth, pack)
    decreases MaxDepth(pack) - depth, 0, 1
  {
    var part := Prepare(nid, att, depth, pack).part;
    if Descends(att, depth, pack) {
      NestedConserves(att, depth, pack);
      NestedHandled(part, depth, pack);
    } else {
      FlatHandled(part, depth, pack);
    }
  }

  lemma NestedHandled(part: Prepared, depth: nat, pack: Packing)
    requires depth <= MaxDepth(pack) && Deeper([part], depth, pack) && part.NestedMessage?
    ensures part.writeDepth == depth + 1 <= MaxDepth(pack)
    ensures Handled([RenderPart(part, depth, pack)], PartLedger(part, depth, pack)) ==
            Handled(PartsIn(Render(part.msg, part.writeDepth, pack)), Ledger(part.msg, part.writeDepth, pack))
            + (if part.incomplete then 1 else 0) + |part.pendingFails| + 1
  {
    assert [part][0].writeDepth == depth + 1 <= MaxDepth(pack);
    CountAlone(RenderPart(part, depth, pack));
  }

  lemma FlatHandled(part: Prepared, depth: nat, pack: Packing)
    requires depth <= MaxDepth(pack) && Deeper([part], depth, pack) && !part.NestedMessage?
    ensures Handled([RenderPart(part, depth, pack)], PartLedger(part, depth, pack)) == 1
  {
    CountAlone(RenderPart(part, depth, pack));
  }

  lemma {:induction false} NestedConserves(att: Attachment, depth: nat, pack: Packing)
    requires pack.keepAttachments && Descends(att, depth, pack)
    ensures var nested := att.embedded.value;
            Handled(PartsIn(Render(Inner(nested), depth + 1, pack)), Ledger(Inner(nested), depth + 1, pack))
            + (if nested.incomplete then 1 else 0) + |PendingFails(nested)| + 1 == ReachableFrom(att, depth, pack)
    decreases MaxDepth(pack) - depth, 0, 0
  {
    var next := depth + 1;
    Conserves(Inner(att.embedded.value), next, pack);
    ReachableBelow(att, depth, next, pack);
  }

  /** The children of a nested message are written from its own list, or fail one by one. */
  lemma ReachableBelow(att: Attachment, depth: nat, next: nat, pack: Packing)
    requires pack.keepAttachments && Descends(att, depth, pack) && next == depth + 1
    ensures var nested := att.embedded.value;
            ReachableFrom(att, depth, pack) ==
            Reachable(Wanted(Inner(nested), pack), next, pack) + (if nested.incomplete then 1 else 0) + |PendingFails(nested)| + 1
  {
  }

  // ---- the shape of what is written ----

  /** How many levels of nested messages the parts hold. */
  function Height(parts: seq<Part>): nat {
    if parts == [] then 0
    else
      var n := |parts| - 1;
      var below := match parts[n]
        case FilePart(_, _) => 0
        case RawMessagePart(_, _) => 0
        case NestedPart(_, BodyOnly) => 1
        case NestedPart(_, Mixed(inner)) => 1 + Height(inner);
      if Height(parts[..n]) > below then Height(parts[..n]) else below
  }

  /** No multipart is empty, at any level. */
  predicate NoneEmpty(parts: seq<Part>) {
    parts == [] ||
    var n := |parts| - 1;
    NoneEmpty(parts[..n]) &&
    match parts[n]
    case FilePart(_, _) => true
    case RawMessagePart(_, _) => true
    case NestedPart(_, BodyOnly) => true
    case NestedPart(_, Mixed(inner)) => inner != [] && NoneEmpty(inner)
  }

  /** Nested messages never reach below the clamped limit, and no multipart without parts is written. */
  lemma {:induction false} StaysWithinDepth(msg: Message, depth: nat, pack: Packing)
    requires depth <= MaxDepth(pack)
    ensures var entity := Render(msg, depth, pack);
            && depth + Height(PartsIn(entity)) <= MaxDepth(pack)
            && (entity.Mixed? ==> entity.parts != []) && NoneEmpty(PartsIn(entity))
    decreases MaxDepth(pack) - depth, 1, 0
  {
    PartsStayWithinDepth(PartsOf(msg, depth, pack), depth, pack);
  }

  lemma {:induction false} PartsStayWithinDepth(prepared: seq<Prepared>, depth: nat, pack: Packing)
    requires depth <= MaxDepth(pack) && Deeper(prepared, depth, pack)
    ensures Within(RenderParts(prepared, depth, pack), MaxDepth(pack) - depth)
    decreases MaxDepth(pack) - depth, 0, |prepared|
  {
    if prepared != [] {
      var n := |prepared| - 1;
      PartsStayWithinDepth(prepared[..n], depth, pack);
      if prepared[n].NestedMessage? {
        StaysWithinDepth(prepared[n].msg, depth + 1, pack);
      }
      WithinAppend(RenderParts(prepared[..n], depth, pack), RenderPart(prepared[n], depth, pack), MaxDepth(pack) - depth,
                   RenderParts(prepared, depth, pack));
    }
  }

  predicate Within(parts: seq<Part>, levels: nat) {
    Height(parts) <= levels && NoneEmpty(parts)
  }

  predicate PartWithin(part: Part, levels: nat) {
    part.NestedPart? ==>
      1 + Height(PartsIn(part.entity)) <= levels && (part.entity.Mixed? ==> part.entity.parts != []) && NoneEmpty(PartsIn(part.entity))
  }

  lemma WithinAppend(parts: seq<Part>, part: Part, levels: nat, all: seq<Part>)
    requires Within(parts, levels) && PartWithin(part, levels) && all == parts + [part]
    ensures Within(all, levels)
  {
    assert all[..|parts|] == parts;
  }

  // ---- reading it back ----

  function Decoded(encoded: Bytes): Option<Bytes> {
    Decode(Unwrap(encoded))
  }

  lemma FileReadBack(data: Bytes)
    ensures Decoded(Wrap(Encode(data))) == Some(data)
  {
    WrappedRoundTrip(data);
  }
}
