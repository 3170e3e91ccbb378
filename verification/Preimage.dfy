/** What the content hash and the strong content hash are taken of (hasher.rs). */
module Preimage {
  import opened Common
  import opened SortedTexts

  const PIPE: byte := 124
  const COLON: byte := 58
  const SEMI: byte := 59
  const MINUS: byte := 45

  /** A name in lower case; `sentinel` is the digest that stands for content that was not read. */
  datatype Attach = Attach(name: Bytes, size: nat, inline: bool, digest: Option<Hash>, sentinel: Hash)

  /** The fields of a message, each already normalized. */
  datatype Fields = Fields(subject: Option<Bytes>, submitTime: Option<int>, sender: Option<Bytes>, preview: Option<Bytes>, attachments: seq<Attach>)

  datatype Level = Body | BodyRecip | BodyRecipAttach

  /** Identity keys when the message has any, display names otherwise. */
  datatype Recipients = Keys(keys: seq<Bytes>) | Displays(to: seq<Bytes>, cc: seq<Bytes>, bcc: seq<Bytes>)

  datatype Strength = Strength(level: Level, bodyHash: Option<Hash>, bodyLen: Option<nat>, recipients: Recipients, ignoreInline: bool)

  // ---- pieces ----

  function Digits(n: nat): Bytes {
    if n < 10 then [(48 + n) as byte] else Digits(n / 10) + [(48 + n % 10) as byte]
  }

  function Decimal(n: int): Bytes {
    if n < 0 then [MINUS] + Digits(-n) else Digits(n)
  }

  function Text(s: Option<Bytes>): Bytes {
    if s.Some? then s.value else []
  }

  function TimeText(t: Option<int>): Bytes {
    if t.Some? then Decimal(t.value) else []
  }

  function Meta(a: Attach): Bytes {
    a.name + [COLON] + Decimal(a.size)
  }

  /** Inline attachments count unless they are to be ignored. */
  predicate Kept(a: Attach, ignoreInline: bool) {
    !(ignoreInline && a.inline)
  }

  function MetaPick(ignoreInline: bool): Attach -> Option<Bytes> {
    a => if Kept(a, ignoreInline) then Some(Meta(a)) else None
  }

  function NamePick(ignoreInline: bool): Attach -> Option<Bytes> {
    a => if Kept(a, ignoreInline) then Some(a.name) else None
  }

  /** An attachment always has a slot: its digest, or the sentinel. */
  function AttachContentSlot(a: Attach, isUnread: bool): Hash {
    if isUnread || a.digest.None? then a.sentinel else a.digest.value
  }

  function SlotPick(ignoreInline: bool): Attach -> Option<Bytes> {
    a => if Kept(a, ignoreInline) then Some(AttachContentSlot(a, false)) else None
  }

  /** Every text followed by a semicolon. */
  function Terminated(texts: seq<Bytes>): Bytes {
    if texts == [] then [] else Terminated(texts[..|texts| - 1]) + texts[|texts| - 1] + [SEMI]
  }

  /** Semicolons between the texts. */
  function Joined(texts: seq<Bytes>): Bytes {
    if texts == [] then []
    else if |texts| == 1 then texts[0]
    else Joined(texts[..|texts| - 1]) + [SEMI] + texts[|texts| - 1]
  }

  function Header(f: Fields): Bytes {
    Text(f.subject) + [PIPE] + TimeText(f.submitTime) + [PIPE] + Text(f.sender) + [PIPE]
  }

  function AttachText(f: Fields, ignoreInline: bool): Bytes {
    Terminated(Sort(Collect(MetaPick(ignoreInline), f.attachments)))
  }

  /** The preimage of the content hash. */
  function V1(f: Fields, ignoreInline: bool): Bytes {
    Header(f) + Text(f.preview) + [PIPE] + AttachText(f, ignoreInline)
  }

  function RecipientText(r: Recipients): Bytes {
    match r
    case Keys(keys) => Joined(Sort(keys))
    case Displays(to, cc, bcc) => Joined(Sort(to)) + [PIPE] + Joined(Sort(cc)) + [PIPE] + Joined(Sort(bcc))
  }

  const V2_TAG: Bytes := [PIPE, 118, 50, PIPE]

  function Extras(f: Fields, s: Strength): Bytes {
    Text(s.bodyHash) + [PIPE] + TimeText(s.bodyLen) + [PIPE]
    + (if s.level == Body then [] else RecipientText(s.recipients) + [PIPE])
    + (if s.level == BodyRecipAttach then Terminated(Sort(Collect(SlotPick(s.ignoreInline), f.attachments))) else [])
  }

  /** The preimage of the strong content hash. */
  function Strong(f: Fields, s: Strength): Bytes {
    V1(f, s.ignoreInline) + V2_TAG + Extras(f, s)
  }

  // ---- the hashers' updates ----

  method AttachmentMetaStrings(attachments: seq<Attach>, ignoreInline: bool) returns (texts: seq<Bytes>)
    ensures texts == Sort(Collect(MetaPick(ignoreInline), attachments))
  {
    texts := [];
    for i := 0 to |attachments|
      invariant texts == Collect(MetaPick(ignoreInline), attachments[..i])
    {
      assert attachments[..i + 1][..i] == attachments[..i];
      if !(ignoreInline && attachments[i].inline) {
        texts := texts + [attachments[i].name + [COLON] + Decimal(attachments[i].size)];
      }
    }
    assert attachments[..|attachments|] == attachments;
    texts := Sort(texts);
  }

  method UpdateEach(buffer: Bytes, texts: seq<Bytes>) returns (result: Bytes)
    ensures result == buffer + Terminated(texts)
  {
    result := buffer;
    for i := 0 to |texts|
      invariant result == buffer + Terminated(texts[..i])
    {
      assert texts[..i + 1][..i] == texts[..i];
      result := result + texts[i] + [SEMI];
    }
    assert texts[..|texts|] == texts;
  }

  /** An optional text and the separator after it. */
  method UpdateField(buffer: Bytes, text: Option<Bytes>) returns (result: Bytes)
    ensures result == buffer + Text(text) + [PIPE]
  {
    result := buffer;
    if text.Some? {
      result := result + text.value;
    }
    result := result + [PIPE];
  }

  function TimeField(t: Option<int>): (r: Option<Bytes>)
    ensures Text(r) == TimeText(t)
  {
    if t.Some? then Some(Decimal(t.value)) else None
  }

  /** The content preimage, and those of the header, body and attachment fingerprints taken beside it. */
  method ContentPreimages(f: Fields, ignoreInline: bool) returns (content: Bytes, header: Bytes, body: Bytes, attach: Bytes)
    ensures content == V1(f, ignoreInline)
    ensures content == header + body + [PIPE] + attach
    ensures header == Header(f) && body == Text(f.preview) && attach == AttachText(f, ignoreInline)
  {
    header := UpdateField([], f.subject);
    header := UpdateField(header, TimeField(f.submitTime));
    header := UpdateField(header, f.sender);
    assert [] + Text(f.subject) == Text(f.subject);
    body := Text(f.preview);
    content := UpdateField(header, f.preview);
    var texts := AttachmentMetaStrings(f.attachments, ignoreInline);
    content := UpdateEach(content, texts);
    attach := UpdateEach([], texts);
    assert [] + Terminated(texts) == Terminated(texts);
  }

  lemma Regroup(a: Bytes, b: Bytes, c: Bytes)
    ensures (a + b) + c == a + (b + c)
  {
  }

  /** The strong preimage: the content preimage, then what the identity level asks for. */
  method StrongPreimage(f: Fields, s: Strength) returns (buffer: Bytes)
    ensures buffer == Strong(f, s)
  {
    var content, _, _, _ := ContentPreimages(f, s.ignoreInline);
    buffer := content + V2_TAG;
    ghost var start := buffer;
    buffer := UpdateField(buffer, s.bodyHash);
    ghost var extras := Text(s.bodyHash) + [PIPE];
    assert buffer == start + extras;
    buffer := UpdateField(buffer, TimeField(s.bodyLen));
    Regroup(start, extras, TimeText(s.bodyLen));
    Regroup(start, extras + TimeText(s.bodyLen), [PIPE]);
    extras := extras + TimeText(s.bodyLen) + [PIPE];
    assert buffer == start + extras;
    ghost var recipients: Bytes := [];
    if s.level != Body {
      buffer := buffer + RecipientText(s.recipients) + [PIPE];
      recipients := RecipientText(s.recipients) + [PIPE];
      Regroup(buffer[..0] + start + extras, RecipientText(s.recipients), [PIPE]);
    }
    Regroup(start, extras, recipients);
    extras := extras + recipients;
    assert buffer == start + extras;
    ghost var slots: Bytes := [];
    if s.level == BodyRecipAttach {
      buffer := UpdateEach(buffer, Sort(Collect(SlotPick(s.ignoreInline), f.attachments)));
      slots := Terminated(Sort(Collect(SlotPick(s.ignoreInline), f.attachments)));
    }
    Regroup(start, extras, slots);
  }

  // ---- order does not matter ----

  /** Rearranging the attachments, and recipients within their lists, changes neither preimage. */
  lemma OrderDoesNotMatter(f: Fields, g: Fields, s: Strength, t: Strength)
    requires f.(attachments := g.attachments) == g && multiset(f.attachments) == multiset(g.attachments)
    requires s.(recipients := t.recipients) == t && SameRecipients(s.recipients, t.recipients)
    ensures V1(f, s.ignoreInline) == V1(g, t.ignoreInline) && Strong(f, s) == Strong(g, t)
  {
    SamePicked(MetaPick(s.ignoreInline), f.attachments, g.attachments);
    SamePicked(SlotPick(s.ignoreInline), f.attachments, g.attachments);
    SameRecipientText(s.recipients, t.recipients);
  }

  lemma SamePicked(pick: Attach -> Option<Bytes>, a: seq<Attach>, b: seq<Attach>)
    requires multiset(a) == multiset(b)
    ensures Sort(Collect(pick, a)) == Sort(Collect(pick, b))
  {
    CollectPermutes(pick, a, b);
    SortOfSame(Collect(pick, a), Collect(pick, b));
  }

  predicate SameRecipients(r: Recipients, q: Recipients) {
    match r
    case Keys(keys) => q.Keys? && multiset(keys) == multiset(q.keys)
    case Displays(to, cc, bcc) =>
      q.Displays? && multiset(to) == multiset(q.to) && multiset(cc) == multiset(q.cc) && multiset(bcc) == multiset(q.bcc)
  }

  lemma SameRecipientText(r: Recipients, q: Recipients)
    requires SameRecipients(r, q)
    ensures RecipientText(r) == RecipientText(q)
  {
    if r.Keys? {
      SortOfSame(r.keys, q.keys);
    } else {
      SortOfSame(r.to, q.to);
      SortOfSame(r.cc, q.cc);
      SortOfSame(r.bcc, q.bcc);
    }
  }

  // ---- counting separators ----

  function Pipes(s: Bytes): nat {
    multiset(s)[PIPE]
  }

  function PipesOf(texts: seq<Bytes>): nat {
    if texts == [] then 0 else PipesOf(texts[..|texts| - 1]) + Pipes(texts[|texts| - 1])
  }

  /** Separators that stand inside fields: subject, sender, preview and the names of the attachments that count. */
  function FieldPipes(f: Fields, ignoreInline: bool): nat {
    Pipes(Text(f.subject)) + Pipes(Text(f.sender)) + Pipes(Text(f.preview)) + PipesOf(Collect(NamePick(ignoreInline), f.attachments))
  }

  lemma {:induction false} DigitsPlain(n: nat)
    ensures Pipes(Digits(n)) == 0
  {
    if n >= 10 {
      DigitsPlain(n / 10);
    }
  }

  lemma {:induction false} PipesOfConcat(a: seq<Bytes>, b: seq<Bytes>)
    ensures PipesOf(a + b) == PipesOf(a) + PipesOf(b)
  {
    if b == [] {
      assert a + b == a;
    } else {
      PipesOfConcat(a, b[..|b| - 1]);
      assert (a + b)[..|a + b| - 1] == a + b[..|b| - 1];
    }
  }

  lemma PipesOfOne(x: Bytes)
    ensures PipesOf([x]) == Pipes(x)
  {
    assert [x][..0] == [];
  }

  lemma {:induction false} PipesOfInsert(x: Bytes, s: seq<Bytes>)
    ensures PipesOf(Insert(x, s)) == Pipes(x) + PipesOf(s)
  {
    PipesOfOne(x);
    if s == [] || AtMost(x, s[0]) {
      PipesOfConcat([x], s);
    } else {
      PipesOfInsert(x, s[1..]);
      PipesOfOne(s[0]);
      PipesOfConcat([s[0]], Insert(x, s[1..]));
      PipesOfConcat([s[0]], s[1..]);
      assert s == [s[0]] + s[1..];
    }
  }

  lemma {:induction false} PipesOfSort(s: seq<Bytes>)
    ensures PipesOf(Sort(s)) == PipesOf(s)
  {
    if s != [] {
      PipesOfSort(s[1..]);
      PipesOfInsert(s[0], Sort(s[1..]));
      PipesOfOne(s[0]);
      PipesOfConcat([s[0]], s[1..]);
      assert s == [s[0]] + s[1..];
    }
  }

  lemma {:induction false} PipesTerminated(texts: seq<Bytes>)
    ensures Pipes(Terminated(texts)) == PipesOf(texts)
  {
    if texts != [] {
      PipesTerminated(texts[..|texts| - 1]);
    }
  }

  lemma {:induction false} PipesInNames(attachments: seq<Attach>, ignoreInline: bool)
    ensures PipesOf(Collect(MetaPick(ignoreInline), attachments)) == PipesOf(Collect(NamePick(ignoreInline), attachments))
  {
    if attachments != [] {
      var n := |attachments| - 1;
      PipesInNames(attachments[..n], ignoreInline);
      CollectLast(attachments, n, ignoreInline);
      if Kept(attachments[n], ignoreInline) {
        PipesInName(attachments[n], Collect(MetaPick(ignoreInline), attachments[..n]), Collect(NamePick(ignoreInline), attachments[..n]));
      }
    }
  }

  lemma CollectLast(attachments: seq<Attach>, n: nat, ignoreInline: bool)
    requires |attachments| == n + 1
    ensures var a, metas, names := attachments[n], Collect(MetaPick(ignoreInline), attachments[..n]), Collect(NamePick(ignoreInline), attachments[..n]);
            && Collect(MetaPick(ignoreInline), attachments) == (if Kept(a, ignoreInline) then metas + [Meta(a)] else metas)
            && Collect(NamePick(ignoreInline), attachments) == (if Kept(a, ignoreInline) then names + [a.name] else names)
  {
  }

  lemma PipesInName(a: Attach, metas: seq<Bytes>, names: seq<Bytes>)
    ensures PipesOf(metas + [Meta(a)]) - PipesOf(metas) == PipesOf(names + [a.name]) - PipesOf(names)
  {
    DigitsPlain(a.size);
    PipesOfOne(Meta(a));
    PipesOfOne(a.name);
    PipesOfConcat(metas, [Meta(a)]);
    PipesOfConcat(names, [a.name]);
  }

  /** The content preimage has four separators of its own. */
  lemma V1Pipes(f: Fields, ignoreInline: bool)
    ensures Pipes(V1(f, ignoreInline)) == FieldPipes(f, ignoreInline) + 4
  {
    if f.submitTime.Some? {
      DigitsPlain(if f.submitTime.value < 0 then -f.submitTime.value else f.submitTime.value);
    }
    assert Pipes(TimeText(f.submitTime)) == 0;
    var metas := Collect(MetaPick(ignoreInline), f.attachments);
    PipesTerminated(Sort(metas));
    PipesOfSort(metas);
    PipesInNames(f.attachments, ignoreInline);
  }

  // ---- equal strong preimages ----

  lemma SplitAtPipe(a: Bytes, x: Bytes, b: Bytes, y: Bytes)
    requires a + [PIPE] + x == b + [PIPE] + y
    ensures Pipes(a) == Pipes(b) <==> a == b
  {
    var whole := a + [PIPE] + x;
    assert a == whole[..|a|] && b == whole[..|b|];
    if |a| < |b| {
      assert b == a + [PIPE] + b[|a| + 1..];
    } else if |b| < |a| {
      assert a == b + [PIPE] + a[|b| + 1..];
    }
  }

  /** The content preimage ends at a separator of the strong one. */
  lemma StrongCut(f: Fields, s: Strength) returns (rest: Bytes)
    ensures Strong(f, s) == V1(f, s.ignoreInline) + [PIPE] + rest
  {
    var a, x := V1(f, s.ignoreInline), Extras(f, s);
    rest := V2_TAG[1..] + x;
    CutTag(a, x);
  }

  lemma CutTag(a: Bytes, x: Bytes)
    ensures a + V2_TAG + x == a + [PIPE] + (V2_TAG[1..] + x)
  {
    assert V2_TAG == [PIPE] + V2_TAG[1..];
  }

  /**
   The source says that messages equal in the strong hash are equal in the content hash. Of the preimages that is so
   exactly when the two messages have as many separators inside their fields.
   */
  lemma StrongDecidesV1Iff(f: Fields, s: Strength, g: Fields, t: Strength)
    requires Strong(f, s) == Strong(g, t)
    ensures V1(f, s.ignoreInline) == V1(g, t.ignoreInline) <==> FieldPipes(f, s.ignoreInline) == FieldPipes(g, t.ignoreInline)
  {
    var x, n := CutAndCount(f, s);
    var y, m := CutAndCount(g, t);
    SplitIff(Strong(f, s), V1(f, s.ignoreInline), x, n, V1(g, t.ignoreInline), y, m);
  }

  lemma CutAndCount(f: Fields, s: Strength) returns (rest: Bytes, n: nat)
    ensures Strong(f, s) == V1(f, s.ignoreInline) + [PIPE] + rest
    ensures n == FieldPipes(f, s.ignoreInline) && Pipes(V1(f, s.ignoreInline)) == n + 4
  {
    n := FieldPipes(f, s.ignoreInline);
    V1Pipes(f, s.ignoreInline);
    rest := StrongCut(f, s);
  }

  lemma SplitIff(whole: Bytes, a: Bytes, x: Bytes, n: nat, b: Bytes, y: Bytes, m: nat)
    requires whole == a + [PIPE] + x && whole == b + [PIPE] + y && Pipes(a) == n + 4 && Pipes(b) == m + 4
    ensures a == b <==> n == m
  {
    SplitAtPipe(a, x, b, y);
  }

  predicate PipeFree(f: Fields) {
    && !Contains(Text(f.subject), PIPE) && !Contains(Text(f.sender), PIPE) && !Contains(Text(f.preview), PIPE)
    && forall k | 0 <= k < |f.attachments| :: !Contains(f.attachments[k].name, PIPE)
  }

  lemma NoPipes(s: Bytes)
    requires !Contains(s, PIPE)
    ensures Pipes(s) == 0
  {
    assert PIPE !in s;
  }

  lemma {:induction false} NamesPipeFree(attachments: seq<Attach>, ignoreInline: bool)
    requires forall k | 0 <= k < |attachments| :: !Contains(attachments[k].name, PIPE)
    ensures PipesOf(Collect(NamePick(ignoreInline), attachments)) == 0
  {
    if attachments != [] {
      var n := |attachments| - 1;
      NamesPipeFree(attachments[..n], ignoreInline);
      NoPipes(attachments[n].name);
      PipesOfOne(attachments[n].name);
      PipesOfConcat(Collect(NamePick(ignoreInline), attachments[..n]), [attachments[n].name]);
      assert Collect(NamePick(ignoreInline), attachments[..n]) + [] == Collect(NamePick(ignoreInline), attachments[..n]);
    }
  }

  /** Without separators in the fields, equal strong preimages mean equal content preimages. */
  lemma StrongDecidesV1(f: Fields, s: Strength, g: Fields, t: Strength)
    requires PipeFree(f) && PipeFree(g) && Strong(f, s) == Strong(g, t)
    ensures V1(f, s.ignoreInline) == V1(g, t.ignoreInline)
  {
    PipeFreeCounts(f, s.ignoreInline);
    PipeFreeCounts(g, t.ignoreInline);
    StrongDecidesV1Iff(f, s, g, t);
  }

  lemma PipeFreeCounts(f: Fields, ignoreInline: bool)
    requires PipeFree(f)
    ensures FieldPipes(f, ignoreInline) == 0
  {
    NoPipes(Text(f.subject));
    NoPipes(Text(f.sender));
    NoPipes(Text(f.preview));
    NamesPipeFree(f.attachments, ignoreInline);
  }

  /** Without separators in the fields, equal content preimages mean equal fields (none and empty being the same). */
  lemma V1DecidesFields(f: Fields, g: Fields, ignoreInline: bool)
    requires PipeFree(f) && PipeFree(g) && V1(f, ignoreInline) == V1(g, ignoreInline)
    ensures Text(f.subject) == Text(g.subject) && f.submitTime == g.submitTime
    ensures Text(f.sender) == Text(g.sender) && Text(f.preview) == Text(g.preview)
    ensures AttachText(f, ignoreInline) == AttachText(g, ignoreInline)
  {
    TimeTextPlain(f.submitTime);
    TimeTextPlain(g.submitTime);
    var a4, b4 := AttachText(f, ignoreInline), AttachText(g, ignoreInline);
    var a3, b3 := Text(f.preview) + [PIPE] + a4, Text(g.preview) + [PIPE] + b4;
    var a2, b2 := Text(f.sender) + [PIPE] + a3, Text(g.sender) + [PIPE] + b3;
    var a1, b1 := TimeText(f.submitTime) + [PIPE] + a2, TimeText(g.submitTime) + [PIPE] + b2;
    FieldByField(f, ignoreInline);
    FieldByField(g, ignoreInline);
    EqualHeads(Text(f.subject), a1, Text(g.subject), b1, PIPE);
    EqualHeads(TimeText(f.submitTime), a2, TimeText(g.submitTime), b2, PIPE);
    EqualHeads(Text(f.sender), a3, Text(g.sender), b3, PIPE);
    EqualHeads(Text(f.preview), a4, Text(g.preview), b4, PIPE);
    TimesDiffer(f.submitTime, g.submitTime);
  }

  lemma FieldByField(f: Fields, ignoreInline: bool)
    ensures V1(f, ignoreInline) ==
            Text(f.subject) + [PIPE] + (TimeText(f.submitTime) + [PIPE] + (Text(f.sender) + [PIPE]
            + (Text(f.preview) + [PIPE] + AttachText(f, ignoreInline))))
  {
    Nest(Text(f.subject), TimeText(f.submitTime), Text(f.sender), Text(f.preview), AttachText(f, ignoreInline));
  }

  lemma Nest(a: Bytes, b: Bytes, c: Bytes, d: Bytes, e: Bytes)
    ensures a + [PIPE] + b + [PIPE] + c + [PIPE] + d + [PIPE] + e
         == a + [PIPE] + (b + [PIPE] + (c + [PIPE] + (d + [PIPE] + e)))
  {
  }

  lemma TimeTextPlain(t: Option<int>)
    ensures !Contains(TimeText(t), PIPE)
  {
    if t.Some? {
      DigitsPlain(if t.value < 0 then -t.value else t.value);
    }
    var text := TimeText(t);
    assert Pipes(text) == 0;
    forall i | 0 <= i < |text|
      ensures text[i] != PIPE
    {
      assert text[i] in multiset(text);
    }
  }

  // ---- numbers, read back ----

  /** The digits of a number, read back. */
  function Number(s: Bytes): nat
    requires forall k | 0 <= k < |s| :: 48 <= s[k] as int <= 57
  {
    if s == [] then 0 else Number(s[..|s| - 1]) * 10 + (s[|s| - 1] as int - 48)
  }

  lemma {:induction false} DigitsRead(n: nat)
    ensures (forall k | 0 <= k < |Digits(n)| :: 48 <= Digits(n)[k] as int <= 57) && Digits(n) != [] && Number(Digits(n)) == n
    ensures n > 0 ==> Digits(n)[0] != 48
  {
    if n < 10 {
      assert Digits(n)[..0] == [];
    } else {
      DigitsRead(n / 10);
      assert Digits(n)[..|Digits(n)| - 1] == Digits(n / 10);
    }
  }

  /** A time is written in decimal, with a minus sign if it is negative; no time is written as nothing. */
  lemma TimesDiffer(t: Option<int>, u: Option<int>)
    requires TimeText(t) == TimeText(u)
    ensures t == u
  {
    if t.Some? {
      DigitsRead(if t.value < 0 then -t.value else t.value);
    }
    if u.Some? {
      DigitsRead(if u.value < 0 then -u.value else u.value);
    }
    if t.Some? && u.Some? {
      SignsAgree(t.value, u.value);
      if t.value < 0 {
        assert Decimal(t.value)[1..] == Digits(-t.value) && Decimal(u.value)[1..] == Digits(-u.value);
      }
    }
  }

  lemma SignsAgree(t: int, u: int)
    requires Decimal(t) == Decimal(u)
    ensures t < 0 <==> u < 0
  {
    DigitsRead(if t < 0 then -t else t);
    DigitsRead(if u < 0 then -u else u);
    assert Decimal(t)[0] == MINUS <==> t < 0;
    assert Decimal(u)[0] == MINUS <==> u < 0;
  }

  // ---- the attachments, read back ----

  /** Names and sizes of the attachments that count. */
  function KeptPairs(attachments: seq<Attach>, ignoreInline: bool): seq<(Bytes, nat)> {
    if attachments == [] then []
    else
      var n := |attachments| - 1;
      KeptPairs(attachments[..n], ignoreInline)
      + if ignoreInline && attachments[n].inline then [] else [(attachments[n].name, attachments[n].size)]
  }

  function MetaText(pair: (Bytes, nat)): Bytes {
    pair.0 + [COLON] + Decimal(pair.1)
  }

  function MetaTexts(pairs: seq<(Bytes, nat)>): (r: seq<Bytes>)
    ensures |r| == |pairs| && forall i | 0 <= i < |r| :: r[i] == MetaText(pairs[i])
  {
    seq(|pairs|, i requires 0 <= i < |pairs| => MetaText(pairs[i]))
  }

  lemma {:induction false} CollectedAreTexts(attachments: seq<Attach>, ignoreInline: bool)
    ensures Collect(MetaPick(ignoreInline), attachments) == MetaTexts(KeptPairs(attachments, ignoreInline))
  {
    if attachments != [] {
      var n := |attachments| - 1;
      CollectedAreTexts(attachments[..n], ignoreInline);
      CollectLast(attachments, n, ignoreInline);
    }
  }

  lemma DigitsInjective(n: nat, m: nat)
    requires Digits(n) == Digits(m)
    ensures n == m
  {
    DigitsRead(n);
    DigitsRead(m);
  }

  /** The size is what follows the last colon. */
  lemma MetaTextInjective(p: (Bytes, nat), q: (Bytes, nat))
    requires MetaText(p) == MetaText(q)
    ensures p == q
  {
    DigitsRead(p.1);
    DigitsRead(q.1);
    LastColon(p.0, Digits(p.1), q.0, Digits(q.1));
    DigitsInjective(p.1, q.1);
  }

  lemma LastColon(a: Bytes, x: Bytes, b: Bytes, y: Bytes)
    requires a + [COLON] + x == b + [COLON] + y
    requires COLON !in x && COLON !in y
    ensures a == b && x == y
  {
    var s := a + [COLON] + x;
    assert s[|a|] == COLON && s[|b|] == COLON;
    assert a == s[..|a|] == b && x == s[|a| + 1..] == y;
  }

  function Without<T>(s: seq<T>, i: nat): (r: seq<T>)
    requires i < |s|
    ensures |r| == |s| - 1
  {
    s[..i] + s[i + 1..]
  }

  lemma WithoutOne<T>(s: seq<T>, i: nat)
    requires i < |s|
    ensures multiset(s) == multiset(Without(s, i)) + multiset{s[i]}
  {
    assert s == s[..i] + [s[i]] + s[i + 1..];
  }

  lemma TextsWithout(q: seq<(Bytes, nat)>, i: nat)
    requires i < |q|
    ensures MetaTexts(Without(q, i)) == Without(MetaTexts(q), i)
  {
  }

  lemma CancelOne<T>(a: multiset<T>, b: multiset<T>, x: T)
    requires a + multiset{x} == b + multiset{x}
    ensures a == b
  {
    assert a == (a + multiset{x}) - multiset{x};
  }

  /** The pair with a given text is found, and taken out on both sides. */
  lemma MatchPair(p: seq<(Bytes, nat)>, q: seq<(Bytes, nat)>) returns (i: nat)
    requires p != [] && multiset(MetaTexts(p)) == multiset(MetaTexts(q))
    ensures i < |q| && q[i] == p[0]
    ensures multiset(MetaTexts(Without(p, 0))) == multiset(MetaTexts(Without(q, i)))
  {
    var x, y := MetaTexts(p), MetaTexts(q);
    assert x[0] in multiset(y);
    i :| 0 <= i < |y| && y[i] == x[0];
    MetaTextInjective(p[0], q[i]);
    TextsWithout(p, 0);
    TextsWithout(q, i);
    WithoutOne(x, 0);
    WithoutOne(y, i);
    CancelOne(multiset(Without(x, 0)), multiset(Without(y, i)), x[0]);
  }

  lemma {:induction false} SamePairs(p: seq<(Bytes, nat)>, q: seq<(Bytes, nat)>)
    requires multiset(MetaTexts(p)) == multiset(MetaTexts(q))
    ensures multiset(p) == multiset(q)
    decreases |p|
  {
    SameSize(MetaTexts(p), MetaTexts(q));
    if p != [] {
      var i := MatchPair(p, q);
      SamePairs(Without(p, 0), Without(q, i));
      WithoutOne(p, 0);
      WithoutOne(q, i);
    }
  }

  predicate SemiFree(texts: seq<Bytes>) {
    forall k | 0 <= k < |texts| :: SEMI !in texts[k]
  }

  /** Texts without semicolons are read back from their terminated form. */
  lemma {:induction false} TerminatedInjective(a: seq<Bytes>, b: seq<Bytes>)
    requires SemiFree(a) && SemiFree(b) && Terminated(a) == Terminated(b)
    ensures a == b
  {
    if a != [] && b != [] {
      var n, m := |a| - 1, |b| - 1;
      LastSemi(Terminated(a[..n]), a[n], Terminated(b[..m]), b[m]);
      TerminatedEnds(a[..n]);
      TerminatedEnds(b[..m]);
      TerminatedInjective(a[..n], b[..m]);
      assert a == a[..n] + [a[n]] && b == b[..m] + [b[m]];
    }
  }

  lemma TerminatedEnds(a: seq<Bytes>)
    ensures var t := Terminated(a); a == [] || (t != [] && t[|t| - 1] == SEMI)
  {
  }

  lemma NoLonger(a: Bytes, x: Bytes, b: Bytes, y: Bytes)
    requires a + x == b + y && SEMI !in x && (b == [] || b[|b| - 1] == SEMI)
    ensures |b| <= |a|
  {
    var s := a + x;
    assert b != [] ==> s[|b| - 1] == SEMI;
  }

  lemma LastSemi(a: Bytes, x: Bytes, b: Bytes, y: Bytes)
    requires a + x + [SEMI] == b + y + [SEMI] && SEMI !in x && SEMI !in y
    requires (a == [] || a[|a| - 1] == SEMI) && (b == [] || b[|b| - 1] == SEMI)
    ensures a == b && x == y
  {
    EqualTails(a + x, [SEMI], b + y, [SEMI]);
    NoLonger(a, x, b, y);
    NoLonger(b, y, a, x);
    EqualTails(a, x, b, y);
  }

  predicate NamesSemiFree(f: Fields) {
    forall k | 0 <= k < |f.attachments| :: SEMI !in f.attachments[k].name
  }

  lemma {:induction false} TextsSemiFree(attachments: seq<Attach>, ignoreInline: bool)
    requires forall k | 0 <= k < |attachments| :: SEMI !in attachments[k].name
    ensures SemiFree(Collect(MetaPick(ignoreInline), attachments))
  {
    if attachments != [] {
      var n := |attachments| - 1;
      TextsSemiFree(attachments[..n], ignoreInline);
      DigitsRead(attachments[n].size);
      CollectLast(attachments, n, ignoreInline);
    }
  }

  lemma SortSemiFree(texts: seq<Bytes>)
    requires SemiFree(texts)
    ensures SemiFree(Sort(texts))
  {
    forall k | 0 <= k < |Sort(texts)|
      ensures SEMI !in Sort(texts)[k]
    {
      assert Sort(texts)[k] in multiset(texts);
    }
  }

  /** Names without semicolons: equal content preimages mean the same attachments, by name and size. */
  lemma V1DecidesAttachments(f: Fields, g: Fields, ignoreInline: bool)
    requires PipeFree(f) && PipeFree(g) && NamesSemiFree(f) && NamesSemiFree(g)
    requires V1(f, ignoreInline) == V1(g, ignoreInline)
    ensures multiset(KeptPairs(f.attachments, ignoreInline)) == multiset(KeptPairs(g.attachments, ignoreInline))
  {
    V1DecidesFields(f, g, ignoreInline);
    var x, y := Collect(MetaPick(ignoreInline), f.attachments), Collect(MetaPick(ignoreInline), g.attachments);
    TextsSemiFree(f.attachments, ignoreInline);
    TextsSemiFree(g.attachments, ignoreInline);
    SortSemiFree(x);
    SortSemiFree(y);
    TerminatedInjective(Sort(x), Sort(y));
    CollectedAreTexts(f.attachments, ignoreInline);
    CollectedAreTexts(g.attachments, ignoreInline);
    SamePairs(KeptPairs(f.attachments, ignoreInline), KeptPairs(g.attachments, ignoreInline));
  }

  // ---- where the source's claim fails ----

  /** One content preimage, two bodies: a separator can move between the subject and the body. */
  lemma SameContentOtherBody(f: Fields, g: Fields)
    requires f == Fields(Some([115]), None, None, Some([PIPE, 112]), [])
    requires g == Fields(Some([115, PIPE]), None, None, Some([112]), [])
    ensures V1(f, false) == V1(g, false) && Text(f.preview) != Text(g.preview)
  {
    assert AttachText(f, false) == [] && AttachText(g, false) == [];
    assert Header(f) == [115, PIPE, PIPE, PIPE] && Header(g) == [115, PIPE, PIPE, PIPE, PIPE];
    assert V1(f, false) == [115, PIPE, PIPE, PIPE, PIPE, 112, PIPE] == V1(g, false);
    assert Text(f.preview)[0] != Text(g.preview)[0];
  }

  const F1: Bytes := [102, 58, 49]
  const TAIL: Bytes := [PIPE, 118, 50, PIPE, PIPE, PIPE]

  /** A message without any field, to the two recipients "f:1" and "|v2|||". */
  function PlainMessage(): (Fields, Strength) {
    (Fields(None, None, None, None, []), Strength(BodyRecip, None, None, Displays([TAIL, F1], [], []), false))
  }

  /** A message to nobody, with one attachment of one byte named "|v2|||f". */
  function AttachmentMessage(zero: Hash): (Fields, Strength) {
    (Fields(None, None, None, None, [Attach(TAIL + [102], 1, false, None, zero)]),
     Strength(BodyRecip, None, None, Displays([], [], []), false))
  }

  const FOUR: Bytes := [PIPE, PIPE, PIPE, PIPE]

  lemma PlainPreimages(f: Fields, s: Strength)
    requires (f, s) == PlainMessage()
    ensures V1(f, false) == FOUR
    ensures Strong(f, s) == FOUR + V2_TAG + [PIPE, PIPE] + F1 + [SEMI] + TAIL + [PIPE, PIPE, PIPE]
  {
    JoinedPair();
    var to := F1 + [SEMI] + TAIL;
    ExtrasOf(f, s, to);
    assert AttachText(f, false) == [];
    Append(FOUR + V2_TAG, [PIPE, PIPE], F1 + [SEMI], TAIL, [PIPE, PIPE, PIPE]);
  }

  /** The extras of a message at recipient level, without body digest, to recipients shown in one field. */
  lemma ExtrasOf(f: Fields, s: Strength, to: Bytes)
    requires s.level == BodyRecip && s.bodyHash.None? && s.bodyLen.None? && s.recipients.Displays?
    requires s.recipients.cc == [] && s.recipients.bcc == [] && Joined(Sort(s.recipients.to)) == to
    ensures Extras(f, s) == [PIPE, PIPE] + to + [PIPE, PIPE, PIPE]
  {
    assert RecipientText(s.recipients) == to + [PIPE, PIPE];
  }

  lemma Append(a: Bytes, b: Bytes, c: Bytes, d: Bytes, e: Bytes)
    ensures a + (b + (c + d) + e) == a + b + c + d + e
  {
  }

  lemma AttachmentPreimages(zero: Hash, f: Fields, s: Strength)
    requires (f, s) == AttachmentMessage(zero)
    ensures V1(f, false) == FOUR + TAIL + F1 + [SEMI]
    ensures Strong(f, s) == FOUR + TAIL + F1 + [SEMI] + V2_TAG + [PIPE, PIPE, PIPE, PIPE, PIPE]
  {
    MetaOfOne(f.attachments[0]);
    assert Header(f) == [PIPE, PIPE, PIPE];
    assert V1(f, false) == FOUR + TAIL + F1 + [SEMI];
    ExtrasOf(f, s, []);
    assert Extras(f, s) == [PIPE, PIPE, PIPE, PIPE, PIPE];
  }

  /** The claim is false in general: these two share the strong preimage and differ in the content preimage. */
  lemma StrongCollides(zero: Hash)
    ensures var (f, s) := PlainMessage();
            var (g, t) := AttachmentMessage(zero);
            Strong(f, s) == Strong(g, t) && V1(f, false) != V1(g, false)
  {
    var (f, s) := PlainMessage();
    var (g, t) := AttachmentMessage(zero);
    PlainPreimages(f, s);
    AttachmentPreimages(zero, g, t);
    SameBytes();
  }

  lemma SameBytes()
    ensures FOUR + V2_TAG + [PIPE, PIPE] + F1 + [SEMI] + TAIL + [PIPE, PIPE, PIPE]
         == FOUR + TAIL + F1 + [SEMI] + V2_TAG + [PIPE, PIPE, PIPE, PIPE, PIPE]
    ensures FOUR != FOUR + TAIL + F1 + [SEMI]
  {
    assert V2_TAG + [PIPE, PIPE] == TAIL;
    assert V2_TAG + [PIPE, PIPE, PIPE, PIPE, PIPE] == TAIL + [PIPE, PIPE, PIPE];
  }

  lemma MetaOfOne(a: Attach)
    requires a.name == TAIL + [102] && a.size == 1
    ensures Terminated(Sort(Collect(MetaPick(false), [a]))) == TAIL + F1 + [SEMI]
  {
    assert [a][..0] == [];
    assert Collect(MetaPick(false), [a]) == [Meta(a)];
    assert Sort([Meta(a)]) == [Meta(a)];
    assert Meta(a) == TAIL + F1;
    assert [Meta(a)][..0] == [];
  }

  lemma JoinedPair()
    ensures Joined(Sort([TAIL, F1])) == F1 + [SEMI] + TAIL
  {
    assert [TAIL, F1][1..] == [F1] && [F1][1..] == [];
    assert Sort([F1]) == [F1];
    assert !AtMost(TAIL, F1);
    assert Insert(TAIL, [F1]) == [F1, TAIL];
    assert [F1, TAIL][..1] == [F1];
  }
}
