/** What each identity level makes the strong preimage decide, and what it leaves open. */
module IdentityLevels {
  import opened Common
  import opened SortedTexts
  import opened Preimage

  // ---- the format ----

  /** The content preimage in order: subject, time, sender and preview, each followed by a bar, and the attachments. */
  lemma ContentFormat(f: Fields, ignoreInline: bool)
    ensures V1(f, ignoreInline) ==
            Text(f.subject) + [PIPE] + TimeText(f.submitTime) + [PIPE] + Text(f.sender) + [PIPE] + Text(f.preview) + [PIPE]
            + AttachText(f, ignoreInline)
    ensures PIPE as char == '|' && COLON as char == ':' && SEMI as char == ';' && MINUS as char == '-'
  {
  }

  /** One attachment in it: name, colon, size. */
  lemma MetaFormat(a: Attach)
    ensures Meta(a) == a.name + [COLON] + Digits(a.size)
  {
  }

  // ---- one list of texts, read back ----

  /** Texts that can be told apart in a list: none is empty, none holds a semicolon or a bar. */
  predicate Tame(texts: seq<Bytes>) {
    forall k | 0 <= k < |texts| :: texts[k] != [] && SEMI !in texts[k] && PIPE !in texts[k]
  }

  lemma SortTame(texts: seq<Bytes>)
    requires Tame(texts)
    ensures Tame(Sort(texts))
  {
    forall k | 0 <= k < |Sort(texts)|
      ensures Sort(texts)[k] != [] && SEMI !in Sort(texts)[k] && PIPE !in Sort(texts)[k]
    {
      assert Sort(texts)[k] in multiset(texts);
    }
  }

  lemma JoinedIsTerminated(texts: seq<Bytes>)
    requires texts != []
    ensures Joined(texts) + [SEMI] == Terminated(texts)
  {
    if |texts| == 1 {
      assert texts[..0] == [];
      assert Terminated(texts) == Terminated([]) + texts[0] + [SEMI];
    } else {
      JoinedIsTerminated(texts[..|texts| - 1]);
    }
  }

  lemma JoinedNonempty(texts: seq<Bytes>)
    requires texts != [] && Tame(texts)
    ensures Joined(texts) != []
  {
    if |texts| > 1 {
      assert |Joined(texts)| == |Joined(texts[..|texts| - 1])| + 1 + |texts[|texts| - 1]|;
    }
  }

  lemma JoinedInjective(a: seq<Bytes>, b: seq<Bytes>)
    requires Tame(a) && Tame(b) && Joined(a) == Joined(b)
    ensures a == b
  {
    if a != [] {
      JoinedNonempty(a);
    }
    if b != [] {
      JoinedNonempty(b);
    }
    if a != [] && b != [] {
      JoinedIsTerminated(a);
      JoinedIsTerminated(b);
      TerminatedInjective(a, b);
    }
  }

  lemma {:induction false} JoinedHasNoPipe(texts: seq<Bytes>)
    requires Tame(texts)
    ensures !Contains(Joined(texts), PIPE)
  {
    if |texts| == 1 {
      assert PIPE !in texts[0];
    } else if texts != [] {
      var n := |texts| - 1;
      JoinedHasNoPipe(texts[..n]);
      assert PIPE !in texts[n];
    }
  }

  /** Sorted and joined, two lists read alike exactly when they hold the same texts. */
  lemma ListsDecided(a: seq<Bytes>, b: seq<Bytes>)
    requires Tame(a) && Tame(b) && Joined(Sort(a)) == Joined(Sort(b))
    ensures multiset(a) == multiset(b)
  {
    SortTame(a);
    SortTame(b);
    JoinedInjective(Sort(a), Sort(b));
  }

  predicate TameRecipients(r: Recipients) {
    match r
    case Keys(keys) => Tame(keys)
    case Displays(to, cc, bcc) => Tame(to) && Tame(cc) && Tame(bcc)
  }

  /** What the digests of the attachments that count are, the sentinel standing for one that was not read. */
  function Contents(attachments: seq<Attach>, ignoreInline: bool): seq<Bytes> {
    if attachments == [] then []
    else
      var n := |attachments| - 1;
      Contents(attachments[..n], ignoreInline)
      + if ignoreInline && attachments[n].inline then []
        else match attachments[n].digest
             case Some(digest) => [digest]
             case None => [attachments[n].sentinel]
  }

  // ---- digests, read back ----

  predicate AllDigests(texts: seq<Bytes>) {
    forall k | 0 <= k < |texts| :: |texts[k]| == 32
  }

  lemma {:induction false} ContentsAre(attachments: seq<Attach>, ignoreInline: bool)
    ensures Collect(SlotPick(ignoreInline), attachments) == Contents(attachments, ignoreInline)
    ensures AllDigests(Contents(attachments, ignoreInline))
  {
    if attachments != [] {
      ContentsAre(attachments[..|attachments| - 1], ignoreInline);
    }
  }

  lemma SortDigests(texts: seq<Bytes>)
    requires AllDigests(texts)
    ensures AllDigests(Sort(texts))
  {
    forall k | 0 <= k < |Sort(texts)|
      ensures |Sort(texts)[k]| == 32
    {
      assert Sort(texts)[k] in multiset(texts);
    }
  }

  lemma {:induction false} DigestsInjective(a: seq<Bytes>, b: seq<Bytes>)
    requires AllDigests(a) && AllDigests(b) && Terminated(a) == Terminated(b)
    ensures a == b
  {
    if a != [] && b != [] {
      var n, m := |a| - 1, |b| - 1;
      EqualTails(Terminated(a[..n]) + a[n], [SEMI], Terminated(b[..m]) + b[m], [SEMI]);
      EqualTails(Terminated(a[..n]), a[n], Terminated(b[..m]), b[m]);
      DigestsInjective(a[..n], b[..m]);
      assert a == a[..n] + [a[n]] && b == b[..m] + [b[m]];
    }
  }

  lemma DigestListsDecided(a: seq<Bytes>, b: seq<Bytes>)
    requires AllDigests(a) && AllDigests(b) && Terminated(Sort(a)) == Terminated(Sort(b))
    ensures multiset(a) == multiset(b)
  {
    SortDigests(a);
    SortDigests(b);
    DigestsInjective(Sort(a), Sort(b));
  }

  // ---- the extras ----

  function SlotText(f: Fields, s: Strength): Bytes {
    if s.level == BodyRecipAttach then Terminated(Sort(Collect(SlotPick(s.ignoreInline), f.attachments))) else []
  }

  function RecipientsOn(f: Fields, s: Strength): Bytes {
    if s.level == Body then []
    else
      (match s.recipients
       case Keys(keys) => Joined(Sort(keys))
       case Displays(to, cc, bcc) => Joined(Sort(to)) + [PIPE] + Joined(Sort(cc)) + [PIPE] + Joined(Sort(bcc)))
      + [PIPE] + SlotText(f, s)
  }

  /** After the tag: body digest, body length, recipients and attachment contents, as far as the level goes. */
  lemma ExtrasFormat(f: Fields, s: Strength)
    ensures Strong(f, s) == V1(f, s.ignoreInline) + ([PIPE, 118, 50, PIPE] + (Text(s.bodyHash) + [PIPE] + (TimeText(s.bodyLen) + [PIPE] + RecipientsOn(f, s))))
    ensures 118 as char == 'v' && 50 as char == '2'
  {
    var b, l := Text(s.bodyHash), TimeText(s.bodyLen);
    if s.level == Body {
      NestExtras(b, l, [], []);
    } else {
      NestExtras(b, l, RecipientText(s.recipients) + [PIPE], SlotText(f, s));
    }
    assert V2_TAG == [PIPE, 118, 50, PIPE];
    NestTag(V1(f, s.ignoreInline), V2_TAG, Extras(f, s));
  }

  lemma NestExtras(b: Bytes, l: Bytes, r: Bytes, d: Bytes)
    ensures b + [PIPE] + l + [PIPE] + r + d == b + [PIPE] + (l + [PIPE] + (r + d))
  {
  }

  lemma NestTag(a: Bytes, t: Bytes, x: Bytes)
    ensures a + t + x == a + (t + x)
  {
  }

  lemma BodyDecided(s: Strength, t: Strength, x: Bytes, y: Bytes)
    requires s.bodyHash.Some? == t.bodyHash.Some?
    requires Text(s.bodyHash) + [PIPE] + (TimeText(s.bodyLen) + [PIPE] + x) == Text(t.bodyHash) + [PIPE] + (TimeText(t.bodyLen) + [PIPE] + y)
    ensures s.bodyHash == t.bodyHash && s.bodyLen == t.bodyLen && x == y
  {
    var a, b := Text(s.bodyHash), Text(t.bodyHash);
    var p, q := TimeText(s.bodyLen) + [PIPE] + x, TimeText(t.bodyLen) + [PIPE] + y;
    assert a == (a + [PIPE] + p)[..|a|] && b == (b + [PIPE] + q)[..|b|];
    assert p == (a + [PIPE] + p)[|a| + 1..] && q == (b + [PIPE] + q)[|b| + 1..];
    TimeTextPlain(s.bodyLen);
    TimeTextPlain(t.bodyLen);
    EqualHeads(TimeText(s.bodyLen), x, TimeText(t.bodyLen), y, PIPE);
    TimesDiffer(s.bodyLen, t.bodyLen);
  }

  /** The recipients are read back, and what follows them. */
  lemma RecipientsDecided(r: Recipients, q: Recipients, x: Bytes, y: Bytes)
    requires TameRecipients(r) && TameRecipients(q) && r.Keys? == q.Keys?
    requires RecipientText(r) + [PIPE] + x == RecipientText(q) + [PIPE] + y
    ensures SameRecipients(r, q) && x == y
  {
    if r.Keys? {
      KeysDecided(r.keys, q.keys, x, y);
    } else {
      var a3, b3 := Joined(Sort(r.bcc)) + [PIPE] + x, Joined(Sort(q.bcc)) + [PIPE] + y;
      var a2, b2 := Joined(Sort(r.cc)) + [PIPE] + a3, Joined(Sort(q.cc)) + [PIPE] + b3;
      NestThree(Joined(Sort(r.to)), Joined(Sort(r.cc)), Joined(Sort(r.bcc)), x);
      NestThree(Joined(Sort(q.to)), Joined(Sort(q.cc)), Joined(Sort(q.bcc)), y);
      KeysDecided(r.to, q.to, a2, b2);
      KeysDecided(r.cc, q.cc, a3, b3);
      KeysDecided(r.bcc, q.bcc, x, y);
    }
  }

  lemma KeysDecided(a: seq<Bytes>, b: seq<Bytes>, x: Bytes, y: Bytes)
    requires Tame(a) && Tame(b) && Joined(Sort(a)) + [PIPE] + x == Joined(Sort(b)) + [PIPE] + y
    ensures multiset(a) == multiset(b) && x == y
  {
    SortTame(a);
    SortTame(b);
    JoinedHasNoPipe(Sort(a));
    JoinedHasNoPipe(Sort(b));
    EqualHeads(Joined(Sort(a)), x, Joined(Sort(b)), y, PIPE);
    ListsDecided(a, b);
  }

  lemma NestThree(a: Bytes, b: Bytes, c: Bytes, x: Bytes)
    ensures a + [PIPE] + b + [PIPE] + c + [PIPE] + x == a + [PIPE] + (b + [PIPE] + (c + [PIPE] + x))
  {
  }

  // ---- what a level decides ----

  predicate Comparable(s: Strength, t: Strength) {
    && s.level == t.level && s.bodyHash.Some? == t.bodyHash.Some?
    && (s.level != Body ==> TameRecipients(s.recipients) && TameRecipients(t.recipients) && s.recipients.Keys? == t.recipients.Keys?)
  }

  /**
   Equal strong preimages of comparable messages without bars in their fields mean: equal content preimages; the same body
   digest and length; from the recipient level on, the same recipients, field by field and however ordered; and at the
   attachment level the same contents of the attachments that count, however ordered.
   */
  lemma StrongDecides(f: Fields, s: Strength, g: Fields, t: Strength)
    requires PipeFree(f) && PipeFree(g) && Comparable(s, t) && Strong(f, s) == Strong(g, t)
    ensures V1(f, s.ignoreInline) == V1(g, t.ignoreInline)
    ensures s.bodyHash == t.bodyHash && s.bodyLen == t.bodyLen
    ensures s.level != Body ==> SameRecipients(s.recipients, t.recipients)
    ensures s.level == BodyRecipAttach ==>
              multiset(Contents(f.attachments, s.ignoreInline)) == multiset(Contents(g.attachments, t.ignoreInline))
  {
    StrongDecidesV1(f, s, g, t);
    ExtrasFormat(f, s);
    ExtrasFormat(g, t);
    var x, y := RecipientsOn(f, s), RecipientsOn(g, t);
    AfterTag(V1(f, s.ignoreInline), Text(s.bodyHash) + [PIPE] + (TimeText(s.bodyLen) + [PIPE] + x),
             Text(t.bodyHash) + [PIPE] + (TimeText(t.bodyLen) + [PIPE] + y));
    BodyDecided(s, t, x, y);
    if s.level != Body {
      RecipientsDecided(s.recipients, t.recipients, SlotText(f, s), SlotText(g, t));
    }
    if s.level == BodyRecipAttach {
      ContentsAre(f.attachments, s.ignoreInline);
      ContentsAre(g.attachments, t.ignoreInline);
      DigestListsDecided(Contents(f.attachments, s.ignoreInline), Contents(g.attachments, t.ignoreInline));
    }
  }

  lemma AfterTag(a: Bytes, x: Bytes, y: Bytes)
    requires a + ([PIPE, 118, 50, PIPE] + x) == a + ([PIPE, 118, 50, PIPE] + y)
    ensures x == y
  {
    var whole := a + ([PIPE, 118, 50, PIPE] + x);
    assert x == whole[|a| + 4..] && y == (a + ([PIPE, 118, 50, PIPE] + y))[|a| + 4..];
  }

  /** Below its level nothing shows: recipients at the body level, contents of attachments below the attachment level. */
  lemma LevelIgnores(f: Fields, g: Fields, s: Strength, t: Strength)
    requires s.(recipients := t.recipients) == t && (s.level != Body ==> s.recipients == t.recipients)
    requires f.(attachments := g.attachments) == g && |f.attachments| == |g.attachments| && s.level != BodyRecipAttach
    requires forall k | 0 <= k < |f.attachments| ::
               g.attachments[k] == f.attachments[k].(digest := g.attachments[k].digest, sentinel := g.attachments[k].sentinel)
    ensures Strong(f, s) == Strong(g, t)
  {
    SameMetas(f.attachments, g.attachments, s.ignoreInline);
    ExtrasFormat(f, s);
    ExtrasFormat(g, t);
  }

  lemma {:induction false} SameMetas(a: seq<Attach>, b: seq<Attach>, ignoreInline: bool)
    requires |a| == |b|
    requires forall k | 0 <= k < |a| :: b[k] == a[k].(digest := b[k].digest, sentinel := b[k].sentinel)
    ensures Collect(MetaPick(ignoreInline), a) == Collect(MetaPick(ignoreInline), b)
  {
    if a != [] {
      SameMetas(a[..|a| - 1], b[..|b| - 1], ignoreInline);
    }
  }
}
