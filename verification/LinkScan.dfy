/** Which cloud links of a body are kept, and when the scan says it dropped some (body_cloud_links.rs). */
module LinkScan {
  import opened Common

  const MAX_URL_LEN: nat := 2048
  const MAX_LINKS: nat := 50

  // ---- classifying ----

  /** How URLs look: wrapped by SafeLinks, what a wrapper's target is, and whether a URL names a cloud document. */
  datatype Recognizer = Recognizer(isSafeLinks: string -> bool, target: string -> Option<string>, isDocument: string -> bool)

  datatype Found = Found(url: string, unwrapped: bool, overlength: bool)

  function Classify(r: Recognizer, url: string): Option<Found> {
    if r.isSafeLinks(url) then
      match r.target(url)
      case None => None
      case Some(t) => if t != "" && !r.isSafeLinks(t) && r.isDocument(t) then Some(Found(t, true, |t| > MAX_URL_LEN)) else None
    else if r.isDocument(url) then Some(Found(url, false, |url| > MAX_URL_LEN))
    else None
  }

  /** A URL that classification can end with. */
  predicate Final(r: Recognizer, url: string) {
    Classify(r, url) == Some(Found(url, false, |url| > MAX_URL_LEN))
  }

  /** Classification is stable: what it gives classifies as itself, and is overlong exactly when it is too long. */
  lemma ClassifyIsFinal(r: Recognizer, cand: string)
    requires Classify(r, cand).Some?
    ensures Final(r, Classify(r, cand).value.url)
    ensures var found := Classify(r, cand).value;
            found.overlength == (|found.url| > MAX_URL_LEN)
  {
  }

  // ---- candidates ----

  datatype LinkSource = HtmlHref | HtmlBare | PlainBare | SafeLinksUnwrap

  datatype Hit = Hit(url: string, source: LinkSource)

  /** How a candidate was met: as text to keep, cut off by the window's edge, or beyond the window. */
  datatype Kind = Whole | Edge | Tail

  /** One classified candidate. */
  datatype Note = Note(url: string, source: LinkSource, kind: Kind)

  function NoteFor(found: Found, source: LinkSource, kind: Kind): Note {
    Note(found.url, if found.unwrapped then SafeLinksUnwrap else source, kind)
  }

  predicate Legal(n: Note) {
    |n.url| <= MAX_URL_LEN
  }

  // ---- which candidates should be hits ----

  /** Only candidates met in the window, of legal length, take a URL's first place. */
  predicate Claims(n: Note) {
    Legal(n) && n.kind != Tail
  }

  predicate Claimed(log: seq<Note>, url: string) {
    exists j | 0 <= j < |log| :: Claims(log[j]) && log[j].url == url
  }

  /** The first whole occurrence of every legal URL, in order. */
  function Chosen(log: seq<Note>): seq<Hit> {
    if log == [] then []
    else
      var n := |log| - 1;
      Chosen(log[..n])
      + if log[n].kind == Whole && Legal(log[n]) && !Claimed(log[..n], log[n].url) then [Hit(log[n].url, log[n].source)] else []
  }

  function Capped(hits: seq<Hit>): (r: seq<Hit>)
    ensures |r| <= MAX_LINKS
  {
    if |hits| <= MAX_LINKS then hits else hits[..MAX_LINKS]
  }

  function Urls(hits: seq<Hit>): set<string> {
    set h | h in hits :: h.url
  }

  lemma UrlsAppend(hits: seq<Hit>, h: Hit)
    ensures Urls(hits + [h]) == Urls(hits) + {h.url}
  {
    forall u | u in Urls(hits) + {h.url}
      ensures u in Urls(hits + [h])
    {
      if u == h.url {
        assert h in hits + [h];
      } else {
        var g :| g in hits && g.url == u;
        assert g in hits + [h];
      }
    }
  }

  /** A candidate that can no longer become a hit. */
  predicate Lost(n: Note, hits: seq<Hit>, seen: set<string>) {
    n.url !in Urls(hits) && (n.url in seen || |hits| >= MAX_LINKS || !Legal(n))
  }

  /** The account of a scan so far: what is kept, what counts as met, and whether anything was dropped. */
  datatype State = State(hits: seq<Hit>, seen: set<string>, dropped: bool)

  ghost predicate SeenIsClaimed(seen: set<string>, log: seq<Note>) {
    forall u: string {:trigger Claimed(log, u)} {:trigger u in seen} :: |u| <= MAX_URL_LEN ==> (u in seen <==> Claimed(log, u))
  }

  ghost predicate HitsRight(s: State, log: seq<Note>) {
    && s.hits == Capped(Chosen(log)) && Urls(s.hits) <= s.seen
    && (|s.hits| < MAX_LINKS ==> SeenIsClaimed(s.seen, log))
  }

  /** Nothing dropped means that every candidate is a hit. */
  ghost predicate DropsKnown(s: State, log: seq<Note>) {
    !s.dropped ==> s.seen == Urls(s.hits) && forall k | 0 <= k < |log| :: log[k].url in Urls(s.hits)
  }

  ghost predicate Right(s: State, log: seq<Note>) {
    HitsRight(s, log) && DropsKnown(s, log)
  }

  /** A drop has a lost candidate to show for it. */
  ghost predicate DropsReal(s: State, log: seq<Note>) {
    s.dropped ==> exists k | 0 <= k < |log| :: Lost(log[k], s.hits, s.seen)
  }

  lemma ClaimedAppend(log: seq<Note>, n: Note, u: string)
    ensures Claimed(log + [n], u) <==> Claimed(log, u) || (Claims(n) && n.url == u)
  {
    if Claimed(log, u) {
      var j :| 0 <= j < |log| && Claims(log[j]) && log[j].url == u;
      assert (log + [n])[j] == log[j];
    }
    if Claims(n) && n.url == u {
      assert (log + [n])[|log|] == n;
    }
  }

  lemma ChosenAppend(log: seq<Note>, n: Note)
    ensures Chosen(log + [n]) ==
            Chosen(log) + if n.kind == Whole && Legal(n) && !Claimed(log, n.url) then [Hit(n.url, n.source)] else []
  {
    assert (log + [n])[..|log|] == log;
  }

  /** A candidate that adds no hit: either it was claimed before, or the list is full, or it can never be one. */
  lemma NoHit(s: State, log: seq<Note>, n: Note, seen: set<string>)
    requires HitsRight(s, log) && (seen == s.seen || seen == s.seen + {n.url})
    requires n.kind == Whole && Legal(n) ==> n.url in s.seen || |s.hits| >= MAX_LINKS
    requires Claims(n) && |s.hits| < MAX_LINKS ==> n.url in seen
    requires !Claims(n) && Legal(n) ==> seen == s.seen
    ensures HitsRight(s.(seen := seen), log + [n])
  {
    ChosenAppend(log, n);
    if |s.hits| < MAX_LINKS {
      forall u: string | |u| <= MAX_URL_LEN
        ensures u in seen <==> Claimed(log + [n], u)
      {
        ClaimedAppend(log, n, u);
        assert u in s.seen <==> Claimed(log, u);
      }
    }
  }

  /** A new legal URL while there is room. */
  lemma NewHit(s: State, log: seq<Note>, n: Note)
    requires Right(s, log) && n.kind == Whole && Legal(n) && n.url !in s.seen && |s.hits| < MAX_LINKS
    ensures Right(State(s.hits + [Hit(n.url, n.source)], s.seen + {n.url}, s.dropped), log + [n])
    ensures DropsReal(s, log) ==> DropsReal(State(s.hits + [Hit(n.url, n.source)], s.seen + {n.url}, s.dropped), log + [n])
  {
    var t := State(s.hits + [Hit(n.url, n.source)], s.seen + {n.url}, s.dropped);
    ChosenAppend(log, n);
    assert n.url in s.seen <==> Claimed(log, n.url);
    UrlsAppend(s.hits, Hit(n.url, n.source));
    forall u: string | |u| <= MAX_URL_LEN
      ensures u in t.seen <==> Claimed(log + [n], u)
    {
      ClaimedAppend(log, n, u);
      assert u in s.seen <==> Claimed(log, u);
    }
    if DropsReal(s, log) && s.dropped {
      var k :| 0 <= k < |log| && Lost(log[k], s.hits, s.seen);
      assert (log + [n])[k] == log[k] && Lost(log[k], t.hits, t.seen);
    }
  }

  /** A candidate met before changes nothing. */
  lemma OldCandidate(s: State, log: seq<Note>, n: Note)
    requires Right(s, log) && n.url in s.seen
    ensures Right(s, log + [n]) && (DropsReal(s, log) ==> DropsReal(s, log + [n]))
  {
    NoHit(s, log, n, s.seen);
    if DropsReal(s, log) {
      DropsStay(s, s, log, n);
    }
  }

  /** A candidate that is dropped, and remembered if `seen` says so. */
  lemma DroppedCandidate(s: State, log: seq<Note>, n: Note, seen: set<string>)
    requires n.url !in s.seen || !Legal(n)
    requires Right(s, log) && (seen == s.seen || seen == s.seen + {n.url})
    requires n.kind == Whole && Legal(n) ==> |s.hits| >= MAX_LINKS
    requires Claims(n) && |s.hits| < MAX_LINKS ==> n.url in seen
    requires !Claims(n) && Legal(n) ==> seen == s.seen
    ensures Right(State(s.hits, seen, true), log + [n])
    ensures n.kind != Tail ==> DropsReal(State(s.hits, seen, true), log + [n])
  {
    NoHit(s, log, n, seen);
    assert (log + [n])[|log|] == n;
    if !Legal(n) {
      HitsAreLegal(s, log, n);
    }
  }

  lemma {:induction false} ChosenIsLegal(log: seq<Note>, k: nat)
    requires k < |Chosen(log)|
    ensures |Chosen(log)[k].url| <= MAX_URL_LEN
  {
    var n := |log| - 1;
    if k < |Chosen(log[..n])| {
      ChosenIsLegal(log[..n], k);
    }
  }

  lemma HitsAreLegal(s: State, log: seq<Note>, n: Note)
    requires HitsRight(s, log) && !Legal(n)
    ensures n.url !in Urls(s.hits)
  {
    if n.url in Urls(s.hits) {
      var h :| h in s.hits && h.url == n.url;
      var k :| 0 <= k < |s.hits| && s.hits[k] == h;
      ChosenIsLegal(log, k);
    }
  }

  lemma DropsStay(s: State, t: State, log: seq<Note>, n: Note)
    requires t.dropped ==> t.hits == s.hits && s.seen <= t.seen && s.dropped && DropsReal(s, log)
    ensures DropsReal(t, log + [n])
  {
    if t.dropped {
      var k :| 0 <= k < |log| && Lost(log[k], s.hits, s.seen);
      assert (log + [n])[k] == log[k] && Lost(log[k], t.hits, t.seen);
    }
  }

  /** Candidates beyond the window claim no URL and are never hits. */
  predicate AllTail(notes: seq<Note>) {
    forall k | 0 <= k < |notes| :: notes[k].kind == Tail
  }

  lemma {:induction false} TailsChooseNothing(log: seq<Note>, notes: seq<Note>)
    requires AllTail(notes)
    ensures Chosen(log + notes) == Chosen(log)
  {
    if notes == [] {
      assert log + notes == log;
    } else {
      var n := |notes| - 1;
      TailsChooseNothing(log, notes[..n]);
      assert (log + notes)[..|log| + n] == log + notes[..n];
    }
  }

  lemma TailsClaimNothing(log: seq<Note>, notes: seq<Note>, u: string)
    requires AllTail(notes)
    ensures Claimed(log + notes, u) <==> Claimed(log, u)
  {
    if Claimed(log, u) {
      var j :| 0 <= j < |log| && Claims(log[j]) && log[j].url == u;
      assert (log + notes)[j] == log[j];
    }
    if Claimed(log + notes, u) {
      var j :| 0 <= j < |log + notes| && Claims((log + notes)[j]) && (log + notes)[j].url == u;
      assert j < |log|;
    }
  }

  /** The tail of a windowed body: a drop is noted exactly when it holds a candidate not met before. */
  lemma TailNoted(s: State, log: seq<Note>, notes: seq<Note>, t: State)
    requires Right(s, log) && AllTail(notes) && t.hits == s.hits
    requires t.dropped <==> s.dropped || exists k | 0 <= k < |notes| :: notes[k].url !in s.seen
    requires s.seen <= t.seen && (!t.dropped ==> t.seen == s.seen) && forall u | u in t.seen - s.seen :: |u| > MAX_URL_LEN
    ensures Right(t, log + notes)
  {
    TailsChooseNothing(log, notes);
    forall u: string | |u| <= MAX_URL_LEN && |s.hits| < MAX_LINKS
      ensures u in t.seen <==> Claimed(log + notes, u)
    {
      TailsClaimNothing(log, notes, u);
      assert u in s.seen <==> Claimed(log, u);
    }
  }

  function FirstOverlong(log: seq<Note>): Option<string> {
    if log == [] then None
    else
      var n := |log| - 1;
      var earlier := FirstOverlong(log[..n]);
      if earlier.Some? then earlier else if Legal(log[n]) then None else Some(log[n].url)
  }

  /** There is a first one that is too long exactly when some candidate is. */
  lemma {:induction false} FirstOverlongIs(log: seq<Note>)
    ensures FirstOverlong(log).None? <==> forall k | 0 <= k < |log| :: Legal(log[k])
  {
    if log != [] {
      var n := |log| - 1;
      FirstOverlongIs(log[..n]);
      assert log == log[..n] + [log[n]];
    }
  }

  function Prefix(url: Option<string>): Option<string> {
    if url.None? then None else Some(if |url.value| <= MAX_URL_LEN then url.value else url.value[..MAX_URL_LEN])
  }

  lemma FirstOverlongAppend(log: seq<Note>, n: Note)
    ensures FirstOverlong(log + [n]) ==
            if FirstOverlong(log).Some? then FirstOverlong(log) else if Legal(n) then None else Some(n.url)
  {
    assert (log + [n])[..|log|] == log;
  }

  /** Why candidates were dropped, and the beginning of the first one that was too long. */
  datatype Flags = Flags(windowDropped: bool, maxLinks: bool, urlTruncated: bool, prefix: Option<string>)

  ghost predicate SeenFinal(r: Recognizer, seen: set<string>, log: seq<Note>) {
    forall u | u in seen :: Final(r, u) && (|u| > MAX_URL_LEN ==> FirstOverlong(log).Some?)
  }

  ghost predicate FlagsRight(r: Recognizer, s: State, f: Flags, log: seq<Note>) {
    && s.dropped == (f.windowDropped || f.maxLinks || f.urlTruncated)
    && f.urlTruncated == FirstOverlong(log).Some? && f.prefix == Prefix(FirstOverlong(log))
    && (f.maxLinks ==> |s.hits| == MAX_LINKS)
    && SeenFinal(r, s.seen, log)
  }

  ghost predicate Sound(r: Recognizer, s: State, f: Flags, log: seq<Note>) {
    Right(s, log) && FlagsRight(r, s, f, log)
  }

  function Overlong(f: Flags, url: string): Flags {
    f.(urlTruncated := true, prefix := if f.prefix.None? then Prefix(Some(url)) else f.prefix)
  }

  lemma SeenGrows(r: Recognizer, seen: set<string>, log: seq<Note>, n: Note)
    requires SeenFinal(r, seen, log) && Final(r, n.url)
    ensures SeenFinal(r, seen, log + [n]) && SeenFinal(r, seen + {n.url}, log + [n])
  {
    FirstOverlongAppend(log, n);
  }

  lemma StepOld(r: Recognizer, s: State, f: Flags, log: seq<Note>, n: Note)
    requires Sound(r, s, f, log) && Final(r, n.url) && n.url in s.seen
    ensures Sound(r, s, f, log + [n]) && (DropsReal(s, log) ==> DropsReal(s, log + [n]))
  {
    OldCandidate(s, log, n);
    SeenGrows(r, s.seen, log, n);
    FirstOverlongAppend(log, n);
  }

  lemma StepNew(r: Recognizer, s: State, f: Flags, log: seq<Note>, n: Note)
    requires Sound(r, s, f, log) && Final(r, n.url) && n.kind == Whole && Legal(n) && n.url !in s.seen && |s.hits| < MAX_LINKS
    ensures var t := State(s.hits + [Hit(n.url, n.source)], s.seen + {n.url}, s.dropped);
            Sound(r, t, f, log + [n]) && (DropsReal(s, log) ==> DropsReal(t, log + [n]))
  {
    NewHit(s, log, n);
    SeenGrows(r, s.seen, log, n);
    FirstOverlongAppend(log, n);
  }

  lemma StepFull(r: Recognizer, s: State, f: Flags, log: seq<Note>, n: Note)
    requires Sound(r, s, f, log) && Final(r, n.url) && n.kind == Whole && Legal(n) && n.url !in s.seen && |s.hits| >= MAX_LINKS
    ensures var t := s.(dropped := true);
            Sound(r, t, f.(maxLinks := true), log + [n]) && DropsReal(t, log + [n])
  {
    DroppedCandidate(s, log, n, s.seen);
    SeenGrows(r, s.seen, log, n);
    FirstOverlongAppend(log, n);
  }

  lemma StepOverlong(r: Recognizer, s: State, f: Flags, log: seq<Note>, n: Note, g: Flags)
    requires Sound(r, s, f, log) && Final(r, n.url) && n.kind != Tail && !Legal(n)
    requires g.maxLinks ==> f.maxLinks || |s.hits| >= MAX_LINKS
    requires g == Overlong(f, n.url).(maxLinks := g.maxLinks, windowDropped := g.windowDropped)
    ensures var t := State(s.hits, s.seen + {n.url}, true);
            Sound(r, t, g, log + [n]) && DropsReal(t, log + [n])
  {
    DroppedCandidate(s, log, n, s.seen + {n.url});
    SeenGrows(r, s.seen, log, n);
    FirstOverlongAppend(log, n);
  }

  lemma StepEdge(r: Recognizer, s: State, f: Flags, log: seq<Note>, n: Note)
    requires Sound(r, s, f, log) && Final(r, n.url) && n.kind == Edge && Legal(n) && n.url !in s.seen
    ensures var t := State(s.hits, s.seen + {n.url}, true);
            Sound(r, t, f.(windowDropped := true), log + [n]) && DropsReal(t, log + [n])
  {
    DroppedCandidate(s, log, n, s.seen + {n.url});
    SeenGrows(r, s.seen, log, n);
    FirstOverlongAppend(log, n);
  }

  // ---- one candidate, and many ----

  datatype Account = Account(s: State, f: Flags)

  const START: Account := Account(State([], {}, false), Flags(false, false, false, None))

  /** What a candidate met inside the window, whole or cut, does to the account. */
  function Step(a: Account, n: Note): Account {
    var full := |a.s.hits| >= MAX_LINKS;
    var isNew := n.url !in a.s.seen;
    if n.kind == Whole && !Legal(n) then
      Account(State(a.s.hits, a.s.seen + {n.url}, true), Overlong(a.f, n.url).(maxLinks := a.f.maxLinks || (full && isNew)))
    else if !isNew then a
    else if n.kind == Whole then
      if full then Account(a.s.(dropped := true), a.f.(maxLinks := true))
      else a.(s := State(a.s.hits + [Hit(n.url, n.source)], a.s.seen + {n.url}, a.s.dropped))
    else
      Account(State(a.s.hits, a.s.seen + {n.url}, true), (if Legal(n) then a.f else Overlong(a.f, n.url)).(windowDropped := true))
  }

  function Steps(a: Account, notes: seq<Note>): Account {
    if notes == [] then a else Step(Steps(a, notes[..|notes| - 1]), notes[|notes| - 1])
  }

  /** The first candidate beyond the window that was not met before and is too long. */
  function FreshOverlong(seen: set<string>, notes: seq<Note>): (r: Option<string>)
    ensures r.Some? ==> |r.value| > MAX_URL_LEN
  {
    if notes == [] then None
    else
      var n := |notes| - 1;
      var earlier := FreshOverlong(seen, notes[..n]);
      if earlier.Some? then earlier
      else if Legal(notes[n]) || notes[n].url in seen then None
      else Some(notes[n].url)
  }

  predicate AnyFresh(seen: set<string>, notes: seq<Note>) {
    exists k | 0 <= k < |notes| :: notes[k].url !in seen
  }

  /** What lies beyond the window is only noted: as a drop, when something there was not met before. */
  function TailStep(a: Account, notes: seq<Note>): Account {
    Drop(a, AnyFresh(a.s.seen, notes), FreshOverlong(a.s.seen, notes))
  }

  function Drop(a: Account, found: bool, overlong: Option<string>): Account {
    if !found then a
    else if overlong.None? then Account(a.s.(dropped := true), a.f.(windowDropped := true))
    else Account(State(a.s.hits, a.s.seen + {overlong.value}, true), Overlong(a.f, overlong.value).(windowDropped := true))
  }

  lemma StepSound(r: Recognizer, a: Account, log: seq<Note>, n: Note)
    requires Sound(r, a.s, a.f, log) && Final(r, n.url) && n.kind != Tail
    ensures var b := Step(a, n);
            Sound(r, b.s, b.f, log + [n]) && (DropsReal(a.s, log) ==> DropsReal(b.s, log + [n]))
  {
    if n.kind == Whole && !Legal(n) {
      StepOverlong(r, a.s, a.f, log, n, Step(a, n).f);
    } else if n.url in a.s.seen {
      StepOld(r, a.s, a.f, log, n);
    } else if n.kind == Edge {
      if Legal(n) {
        StepEdge(r, a.s, a.f, log, n);
      } else {
        StepOverlong(r, a.s, a.f, log, n, Step(a, n).f);
      }
    } else if |a.s.hits| >= MAX_LINKS {
      StepFull(r, a.s, a.f, log, n);
    } else {
      StepNew(r, a.s, a.f, log, n);
    }
  }

  predicate InWindow(r: Recognizer, notes: seq<Note>) {
    forall n | n in notes :: Final(r, n.url) && n.kind != Tail
  }

  ghost predicate Preserved(r: Recognizer, inv: (Account, seq<Note>) -> bool) {
    forall a: Account, log: seq<Note>, n: Note {:trigger inv(a, log), Final(r, n.url)} ::
      inv(a, log) && Final(r, n.url) && n.kind != Tail ==> inv(Step(a, n), log + [n])
  }

  /** What every step keeps, any number of steps keep. */
  lemma {:induction false} StepsPreserve(r: Recognizer, inv: (Account, seq<Note>) -> bool, a: Account, log: seq<Note>, notes: seq<Note>)
    requires Preserved(r, inv) && inv(a, log) && InWindow(r, notes)
    ensures inv(Steps(a, notes), log + notes)
  {
    if notes == [] {
      assert log + notes == log;
    } else {
      var n := |notes| - 1;
      assert notes == notes[..n] + [notes[n]];
      StepsPreserve(r, inv, a, log, notes[..n]);
      assert notes[n] in notes && Final(r, notes[n].url);
      assert log + notes[..n] + [notes[n]] == log + notes;
    }
  }

  lemma StepsSound(r: Recognizer, a: Account, log: seq<Note>, notes: seq<Note>)
    requires Sound(r, a.s, a.f, log) && InWindow(r, notes)
    ensures Sound(r, Steps(a, notes).s, Steps(a, notes).f, log + notes)
  {
    var inv: (Account, seq<Note>) -> bool := (b: Account, l: seq<Note>) => Sound(r, b.s, b.f, l);
    forall b: Account, l: seq<Note>, n: Note | inv(b, l) && Final(r, n.url) && n.kind != Tail
      ensures inv(Step(b, n), l + [n])
    {
      StepSound(r, b, l, n);
    }
    StepsPreserve(r, inv, a, log, notes);
  }

  lemma {:induction false} FirstOverlongTail(log: seq<Note>, notes: seq<Note>, seen: set<string>)
    requires forall u | u in seen && |u| > MAX_URL_LEN :: FirstOverlong(log).Some?
    ensures FirstOverlong(log + notes) == if FirstOverlong(log).Some? then FirstOverlong(log) else FreshOverlong(seen, notes)
  {
    if notes == [] {
      assert log + notes == log;
    } else {
      var n := |notes| - 1;
      FirstOverlongTail(log, notes[..n], seen);
      FirstOverlongAppend(log + notes[..n], notes[n]);
      assert log + notes[..n] + [notes[n]] == log + notes;
    }
  }

  lemma {:induction false} FreshOverlongIs(seen: set<string>, notes: seq<Note>)
    ensures FreshOverlong(seen, notes).Some? ==> AnyFresh(seen, notes) && exists n | n in notes :: n.url == FreshOverlong(seen, notes).value
  {
    if notes != [] {
      var n := |notes| - 1;
      FreshOverlongIs(seen, notes[..n]);
      AnyFreshConcat(seen, notes[..n], [notes[n]]);
      OneFresh(seen, notes[n]);
      assert notes == notes[..n] + [notes[n]];
    }
  }

  lemma TailSound(r: Recognizer, a: Account, log: seq<Note>, notes: seq<Note>)
    requires Sound(r, a.s, a.f, log) && AllTail(notes) && forall n | n in notes :: Final(r, n.url)
    ensures Sound(r, TailStep(a, notes).s, TailStep(a, notes).f, log + notes)
  {
    var b := TailStep(a, notes);
    TailNoted(a.s, log, notes, b.s);
    TailFlags(r, a, log, notes, b);
  }

  lemma TailFlags(r: Recognizer, a: Account, log: seq<Note>, notes: seq<Note>, b: Account)
    requires FlagsRight(r, a.s, a.f, log) && b == TailStep(a, notes) && forall n | n in notes :: Final(r, n.url)
    ensures FlagsRight(r, b.s, b.f, log + notes)
  {
    FirstOverlongTail(log, notes, a.s.seen);
    FreshOverlongIs(a.s.seen, notes);
  }

  // ---- bodies ----

  /** A match in the text, its candidate unescaped and trimmed. */
  datatype Span = Span(start: nat, end: nat, cand: string)

  /** Whether the window cuts a URL at its end, and the whole URL then, if there is one. */
  datatype Cut = NotCut | CutOff(whole: Option<string>)

  /** One body surface: what matches inside the window, the cut at its end, and what matches beyond it. */
  datatype Surface = Surface(hrefs: seq<Span>, bares: seq<Span>, textLen: nat, windowed: bool, cut: Cut, tailBares: seq<string>, tailHrefs: seq<string>)

  function Notes(r: Recognizer, cand: string, source: LinkSource, kind: Kind): seq<Note> {
    if cand == "" || Classify(r, cand).None? then [] else [NoteFor(Classify(r, cand).value, source, kind)]
  }

  predicate Inside(m: Span, hrefs: seq<Span>) {
    exists k | 0 <= k < |hrefs| :: m.start >= hrefs[k].start && m.end <= hrefs[k].end
  }

  predicate AtCut(sf: Surface, m: Span) {
    sf.windowed && m.end == sf.textLen && sf.cut.CutOff?
  }

  function HrefNotes(r: Recognizer, hrefs: seq<Span>): seq<Note> {
    if hrefs == [] then []
    else HrefNotes(r, hrefs[..|hrefs| - 1]) + Notes(r, hrefs[|hrefs| - 1].cand, HtmlHref, Whole)
  }

  function BareNote(r: Recognizer, sf: Surface, m: Span, source: LinkSource, skip: seq<Span>): seq<Note> {
    if Inside(m, skip) then []
    else if AtCut(sf, m) then (if sf.cut.whole.None? then [] else Notes(r, sf.cut.whole.value, source, Edge))
    else Notes(r, m.cand, source, Whole)
  }

  function BareNotes(r: Recognizer, sf: Surface, bares: seq<Span>, source: LinkSource, skip: seq<Span>): seq<Note> {
    if bares == [] then []
    else BareNotes(r, sf, bares[..|bares| - 1], source, skip) + BareNote(r, sf, bares[|bares| - 1], source, skip)
  }

  lemma MoreHrefs(r: Recognizer, hrefs: seq<Span>, k: nat, next: nat)
    requires next == k + 1 <= |hrefs|
    ensures HrefNotes(r, hrefs[..next]) == HrefNotes(r, hrefs[..k]) + Notes(r, hrefs[k].cand, HtmlHref, Whole)
  {
    assert hrefs[..next][..k] == hrefs[..k];
  }

  lemma MoreBares(r: Recognizer, sf: Surface, k: nat, next: nat, source: LinkSource, skip: seq<Span>)
    requires next == k + 1 <= |sf.bares|
    ensures BareNotes(r, sf, sf.bares[..next], source, skip) ==
            BareNotes(r, sf, sf.bares[..k], source, skip) + BareNote(r, sf, sf.bares[k], source, skip)
  {
    assert sf.bares[..next][..k] == sf.bares[..k];
  }

  function TailNotes(r: Recognizer, cands: seq<string>, source: LinkSource): (notes: seq<Note>)
    ensures AllTail(notes)
  {
    if cands == [] then []
    else TailNotes(r, cands[..|cands| - 1], source) + Notes(r, cands[|cands| - 1], source, Tail)
  }

  function WindowNotes(r: Recognizer, sf: Surface, html: bool): seq<Note> {
    if html then HrefNotes(r, sf.hrefs) + BareNotes(r, sf, sf.bares, HtmlBare, sf.hrefs) else BareNotes(r, sf, sf.bares, PlainBare, [])
  }

  function BeyondNotes(r: Recognizer, sf: Surface, html: bool): seq<Note> {
    TailNotes(r, sf.tailBares + sf.tailHrefs, if html then HtmlBare else PlainBare)
  }

  /** Every classified candidate of a surface, in the order the scan meets them. */
  function SurfaceNotes(r: Recognizer, sf: Surface, html: bool): seq<Note> {
    WindowNotes(r, sf, html) + (if sf.windowed then BeyondNotes(r, sf, html) else [])
  }

  function BodyNotes(r: Recognizer, html: Option<Surface>, plain: Option<Surface>): seq<Note> {
    (if html.Some? then SurfaceNotes(r, html.value, true) else []) + (if plain.Some? then SurfaceNotes(r, plain.value, false) else [])
  }

  // ---- the accumulator ----

  class ScanAccum {
    const r: Recognizer
    var hits: seq<Hit>
    var seen: set<string>
    var truncated: bool
    var windowCapped: bool
    var windowDropped: bool
    var maxLinksExceeded: bool
    var urlTruncated: bool
    var overlengthPrefix: Option<string>

    function Now(): Account
      reads this
    {
      Account(State(hits, seen, truncated), Flags(windowDropped, maxLinksExceeded, urlTruncated, overlengthPrefix))
    }

    constructor (r: Recognizer)
      ensures this.r == r && Now() == START && !windowCapped
    {
      this.r := r;
      hits, seen := [], {};
      truncated, windowCapped, windowDropped, maxLinksExceeded, urlTruncated := false, false, false, false, false;
      overlengthPrefix := None;
    }

    method NoteOverlength(url: string)
      requires |url| > MAX_URL_LEN
      modifies this
      ensures Now() == Account(State(hits, old(seen) + {url}, true), Overlong(old(Now()).f, url))
      ensures unchanged(`hits) && unchanged(`windowCapped)
    {
      urlTruncated := true;
      truncated := true;
      if overlengthPrefix.None? {
        overlengthPrefix := Some(url[..MAX_URL_LEN]);
      }
      seen := seen + {url};
    }

    method NoteMaxLinks()
      modifies `maxLinksExceeded, `truncated
      ensures maxLinksExceeded && truncated
    {
      maxLinksExceeded := true;
      truncated := true;
    }

    method NoteWindowDrop()
      modifies `windowDropped, `truncated
      ensures windowDropped && truncated
    {
      windowDropped := true;
      truncated := true;
    }

    /** A candidate inside the window. */
    method TryKeepCandidate(cand: string, source: LinkSource)
      modifies this
      ensures Now() == Steps(old(Now()), Notes(r, cand, source, Whole)) && unchanged(`windowCapped)
    {
      ghost var before := Now();
      NoSteps(before);
      if cand == "" {
        return;
      }
      var classified := Classify(r, cand);
      if classified.None? {
        return;
      }
      ClassifyIsFinal(r, cand);
      var found := classified.value;
      OneStep(before, NoteFor(found, source, Whole));
      if found.overlength {
        if |hits| >= MAX_LINKS && found.url !in seen {
          NoteMaxLinks();
        }
        NoteOverlength(found.url);
        return;
      }
      if found.url in seen {
        return;
      }
      if |hits| >= MAX_LINKS {
        NoteMaxLinks();
        return;
      }
      seen := seen + {found.url};
      hits := hits + [Hit(found.url, if found.unwrapped then SafeLinksUnwrap else source)];
    }

    /** The last match of a window that may be cut; says whether it was. */
    method HandleWindowEdge(cut: Cut, source: LinkSource) returns (handled: bool)
      modifies this
      ensures handled == cut.CutOff? && unchanged(`windowCapped)
      ensures Now() == Steps(old(Now()), if handled && cut.whole.Some? then Notes(r, cut.whole.value, source, Edge) else [])
    {
      ghost var before := Now();
      NoSteps(before);
      if cut.NotCut? {
        return false;
      }
      handled := true;
      if cut.whole.None? || cut.whole.value == "" {
        return;
      }
      var classified := Classify(r, cut.whole.value);
      if classified.None? {
        return;
      }
      ClassifyIsFinal(r, cut.whole.value);
      var found := classified.value;
      OneStep(before, NoteFor(found, source, Edge));
      if found.url in seen {
        return;
      }
      NoteWindowDrop();
      if found.overlength {
        NoteOverlength(found.url);
      }
      seen := seen + {found.url};
    }

    method CollectHrefs(sf: Surface)
      modifies this
      ensures Now() == Steps(old(Now()), HrefNotes(r, sf.hrefs)) && unchanged(`windowCapped)
    {
      ghost var start := Now();
      for k := 0 to |sf.hrefs|
        invariant Now() == Steps(start, HrefNotes(r, sf.hrefs[..k])) && unchanged(`windowCapped)
      {
        MoreHrefs(r, sf.hrefs, k, k + 1);
        StepsConcat(start, HrefNotes(r, sf.hrefs[..k]), Notes(r, sf.hrefs[k].cand, HtmlHref, Whole));
        TryKeepCandidate(sf.hrefs[k].cand, HtmlHref);
      }
      assert sf.hrefs[..|sf.hrefs|] == sf.hrefs;
    }

    /** One bare URL of a window: skipped inside an href value, cut at the window's end, or tried. */
    method CollectBare(sf: Surface, m: Span, source: LinkSource, hrefRanges: seq<Span>)
      modifies this
      ensures Now() == Steps(old(Now()), BareNote(r, sf, m, source, hrefRanges)) && unchanged(`windowCapped)
    {
      NoSteps(Now());
      if Inside(m, hrefRanges) {
        return;
      }
      var handled := false;
      if sf.windowed && m.end == sf.textLen {
        handled := HandleWindowEdge(sf.cut, source);
      }
      if !handled {
        TryKeepCandidate(m.cand, source);
      }
    }

    /** The bare URLs of a window, except those inside an href value. */
    method CollectBares(sf: Surface, source: LinkSource, hrefRanges: seq<Span>)
      modifies this
      ensures Now() == Steps(old(Now()), BareNotes(r, sf, sf.bares, source, hrefRanges)) && unchanged(`windowCapped)
    {
      ghost var start := Now();
      for k := 0 to |sf.bares|
        invariant Now() == Steps(start, BareNotes(r, sf, sf.bares[..k], source, hrefRanges)) && unchanged(`windowCapped)
      {
        MoreBares(r, sf, k, k + 1, source, hrefRanges);
        StepsConcat(start, BareNotes(r, sf, sf.bares[..k], source, hrefRanges), BareNote(r, sf, sf.bares[k], source, hrefRanges));
        CollectBare(sf, sf.bares[k], source, hrefRanges);
      }
      assert sf.bares[..|sf.bares|] == sf.bares;
    }

    /** Looks beyond the window: bare URLs first, then href values. */
    method NoteUnseenIn(bares: seq<string>, hrefs: seq<string>, ghost source: LinkSource)
      requires forall u | u in seen :: Final(r, u)
      modifies this
      ensures Now() == TailStep(old(Now()), TailNotes(r, bares + hrefs, source)) && unchanged(`windowCapped)
    {
      var found, overlong := ProbeBoth(r, bares, hrefs, seen, source);
      assert TailStep(Now(), TailNotes(r, bares + hrefs, source)) == Drop(Now(), found, overlong);
      if !found {
        return;
      }
      NoteWindowDrop();
      if overlong.Some? {
        NoteOverlength(overlong.value);
      }
    }
  }

  method ProbeBoth(r: Recognizer, bares: seq<string>, hrefs: seq<string>, seen: set<string>, ghost source: LinkSource)
    returns (found: bool, overlong: Option<string>)
    requires forall u | u in seen :: Final(r, u)
    ensures found <==> AnyFresh(seen, TailNotes(r, bares + hrefs, source))
    ensures overlong == FreshOverlong(seen, TailNotes(r, bares + hrefs, source))
  {
    found, overlong := Probe(r, bares, seen, false, None, source);
    found, overlong := Probe(r, hrefs, seen, found, overlong, source);
    TailNotesConcat(r, bares, hrefs, source);
    FreshConcat(seen, TailNotes(r, bares, source), TailNotes(r, hrefs, source));
  }

  lemma MoreTail(r: Recognizer, cands: seq<string>, k: nat, next: nat, source: LinkSource)
    requires next == k + 1 <= |cands|
    ensures TailNotes(r, cands[..next], source) == TailNotes(r, cands[..k], source) + Notes(r, cands[k], source, Tail)
  {
    assert cands[..next][..k] == cands[..k];
  }

  /** One candidate beyond the window. */
  method ProbeOne(r: Recognizer, cand: string, seen: set<string>, found: bool, overlong: Option<string>, ghost source: LinkSource)
    returns (nowFound: bool, nowOverlong: Option<string>)
    requires forall u | u in seen :: Final(r, u)
    ensures nowFound <==> found || AnyFresh(seen, Notes(r, cand, source, Tail))
    ensures nowOverlong == if overlong.Some? then overlong else FreshOverlong(seen, Notes(r, cand, source, Tail))
  {
    nowFound, nowOverlong := found, overlong;
    NothingFresh(seen);
    if cand != "" {
      var classified := Classify(r, cand);
      if classified.Some? {
        ClassifyIsFinal(r, cand);
        OneFresh(seen, NoteFor(classified.value, source, Tail));
        if cand !in seen && classified.value.url !in seen {
          nowFound := true;
          if classified.value.overlength && nowOverlong.None? {
            nowOverlong := Some(classified.value.url);
          }
        }
      }
    }
  }

  /** The first candidates not met before, and the first of them that is too long. */
  method Probe(r: Recognizer, cands: seq<string>, seen: set<string>, found: bool, overlong: Option<string>, ghost source: LinkSource)
    returns (nowFound: bool, nowOverlong: Option<string>)
    requires forall u | u in seen :: Final(r, u)
    ensures nowFound <==> found || AnyFresh(seen, TailNotes(r, cands, source))
    ensures nowOverlong == if overlong.Some? then overlong else FreshOverlong(seen, TailNotes(r, cands, source))
  {
    nowFound, nowOverlong := found, overlong;
    NothingFresh(seen);
    for k := 0 to |cands|
      invariant nowFound <==> found || AnyFresh(seen, TailNotes(r, cands[..k], source))
      invariant nowOverlong == if overlong.Some? then overlong else FreshOverlong(seen, TailNotes(r, cands[..k], source))
    {
      MoreTail(r, cands, k, k + 1, source);
      FreshConcat(seen, TailNotes(r, cands[..k], source), Notes(r, cands[k], source, Tail));
      nowFound, nowOverlong := ProbeOne(r, cands[k], seen, nowFound, nowOverlong, source);
    }
    assert cands[..|cands|] == cands;
  }

  lemma NothingFresh(seen: set<string>)
    ensures !AnyFresh(seen, []) && FreshOverlong(seen, []) == None
  {
  }

  lemma OneFresh(seen: set<string>, n: Note)
    ensures AnyFresh(seen, [n]) <==> n.url !in seen
    ensures FreshOverlong(seen, [n]) == if Legal(n) || n.url in seen then None else Some(n.url)
  {
    assert [n][0] == n && [n][..0] == [];
  }

  lemma {:induction false} FreshConcat(seen: set<string>, a: seq<Note>, b: seq<Note>)
    ensures AnyFresh(seen, a + b) <==> AnyFresh(seen, a) || AnyFresh(seen, b)
    ensures FreshOverlong(seen, a + b) == if FreshOverlong(seen, a).Some? then FreshOverlong(seen, a) else FreshOverlong(seen, b)
  {
    AnyFreshConcat(seen, a, b);
    if b == [] {
      assert a + b == a;
    } else {
      FreshConcat(seen, a, b[..|b| - 1]);
      assert (a + b)[..|a + b| - 1] == a + b[..|b| - 1];
    }
  }

  lemma AnyFreshConcat(seen: set<string>, a: seq<Note>, b: seq<Note>)
    ensures AnyFresh(seen, a + b) <==> AnyFresh(seen, a) || AnyFresh(seen, b)
  {
    if AnyFresh(seen, a) {
      var k :| 0 <= k < |a| && a[k].url !in seen;
      assert (a + b)[k] == a[k];
    }
    if AnyFresh(seen, b) {
      var k :| 0 <= k < |b| && b[k].url !in seen;
      assert (a + b)[|a| + k] == b[k];
    }
  }

  lemma {:induction false} TailNotesConcat(r: Recognizer, a: seq<string>, b: seq<string>, source: LinkSource)
    ensures TailNotes(r, a + b, source) == TailNotes(r, a, source) + TailNotes(r, b, source)
  {
    if b == [] {
      assert a + b == a;
    } else {
      TailNotesConcat(r, a, b[..|b| - 1], source);
      assert (a + b)[..|a + b| - 1] == a + b[..|b| - 1];
    }
  }

  lemma {:induction false} StepsConcat(a: Account, x: seq<Note>, y: seq<Note>)
    ensures Steps(a, x + y) == Steps(Steps(a, x), y)
  {
    if y == [] {
      assert x + y == x;
    } else {
      StepsConcat(a, x, y[..|y| - 1]);
      assert (x + y)[..|x + y| - 1] == x + y[..|y| - 1];
    }
  }

  lemma NoSteps(a: Account)
    ensures Steps(a, []) == a
  {
  }

  lemma OneStep(a: Account, n: Note)
    ensures Steps(a, [n]) == Step(a, n)
  {
    assert [n][..0] == [];
  }

  // ---- whole scans ----

  function SurfaceAccount(r: Recognizer, a: Account, sf: Surface, html: bool): Account {
    var b := Steps(a, WindowNotes(r, sf, html));
    if sf.windowed then TailStep(b, BeyondNotes(r, sf, html)) else b
  }

  lemma {:induction false} HrefsInWindow(r: Recognizer, hrefs: seq<Span>)
    ensures InWindow(r, HrefNotes(r, hrefs))
  {
    if hrefs != [] {
      HrefsInWindow(r, hrefs[..|hrefs| - 1]);
    }
  }

  lemma {:induction false} BaresInWindow(r: Recognizer, sf: Surface, bares: seq<Span>, source: LinkSource, skip: seq<Span>)
    ensures InWindow(r, BareNotes(r, sf, bares, source, skip))
  {
    if bares != [] {
      BaresInWindow(r, sf, bares[..|bares| - 1], source, skip);
    }
  }

  lemma WindowIsInWindow(r: Recognizer, sf: Surface, html: bool)
    ensures InWindow(r, WindowNotes(r, sf, html))
  {
    HrefsInWindow(r, sf.hrefs);
    BaresInWindow(r, sf, sf.bares, HtmlBare, sf.hrefs);
    BaresInWindow(r, sf, sf.bares, PlainBare, []);
  }

  lemma {:induction false} TailsFinal(r: Recognizer, cands: seq<string>, source: LinkSource)
    ensures forall n | n in TailNotes(r, cands, source) :: Final(r, n.url)
  {
    if cands != [] {
      TailsFinal(r, cands[..|cands| - 1], source);
    }
  }

  ghost predicate IsTail(r: Recognizer, notes: seq<Note>) {
    AllTail(notes) && forall n | n in notes :: Final(r, n.url)
  }

  lemma BeyondIsTail(r: Recognizer, sf: Surface, html: bool)
    ensures IsTail(r, BeyondNotes(r, sf, html))
  {
    TailsFinal(r, sf.tailBares + sf.tailHrefs, if html then HtmlBare else PlainBare);
  }

  /** Looking beyond the window leads from states with one property to states with another. */
  ghost predicate TailLeads(r: Recognizer, before: (Account, seq<Note>) -> bool, after: (Account, seq<Note>) -> bool) {
    forall a: Account, log: seq<Note>, notes: seq<Note> {:trigger before(a, log), IsTail(r, notes)} ::
      before(a, log) && IsTail(r, notes) ==> after(TailStep(a, notes), log + notes)
  }

  /** Scanning a surface leads there too, and keeps the first property when the surface is not windowed. */
  lemma SurfaceLeads(r: Recognizer, before: (Account, seq<Note>) -> bool, after: (Account, seq<Note>) -> bool,
                     a: Account, log: seq<Note>, sf: Surface, html: bool)
    requires Preserved(r, before) && TailLeads(r, before, after) && before(a, log)
    ensures sf.windowed ==> after(SurfaceAccount(r, a, sf, html), log + SurfaceNotes(r, sf, html))
    ensures !sf.windowed ==> before(SurfaceAccount(r, a, sf, html), log + SurfaceNotes(r, sf, html))
  {
    var inside, beyond := WindowNotes(r, sf, html), BeyondNotes(r, sf, html);
    WindowIsInWindow(r, sf, html);
    StepsPreserve(r, before, a, log, inside);
    BeyondIsTail(r, sf, html);
    assert log + inside + beyond == log + (inside + beyond) && log + inside + [] == log + inside;
    assert inside + [] == inside;
  }

  /** Some candidate is not among the hits. */
  ghost predicate Missed(hits: seq<Hit>, log: seq<Note>) {
    exists k | 0 <= k < |log| :: log[k].url !in Urls(hits)
  }

  lemma RealIsMissed(s: State, log: seq<Note>)
    requires DropsReal(s, log) && s.dropped
    ensures Missed(s.hits, log)
  {
    var k :| 0 <= k < |log| && Lost(log[k], s.hits, s.seen);
    assert log[k].url !in Urls(s.hits);
  }

  lemma MissedAppend(hits: seq<Hit>, log: seq<Note>, notes: seq<Note>)
    ensures Missed(hits, log) || Missed(hits, notes) ==> Missed(hits, log + notes)
  {
    if Missed(hits, log) {
      var k :| 0 <= k < |log| && log[k].url !in Urls(hits);
      assert (log + notes)[k] == log[k];
    }
    if Missed(hits, notes) {
      var k :| 0 <= k < |notes| && notes[k].url !in Urls(hits);
      assert (log + notes)[|log| + k] == notes[k];
    }
  }

  lemma FreshIsMissed(s: State, log: seq<Note>, notes: seq<Note>)
    requires HitsRight(s, log) && AnyFresh(s.seen, notes)
    ensures Missed(s.hits, notes)
  {
    var k :| 0 <= k < |notes| && notes[k].url !in s.seen;
    assert notes[k].url !in Urls(s.hits);
  }

  datatype BodyCloudScan = BodyCloudScan(
    hits: seq<Hit>, truncated: bool, windowCapped: bool, windowDropped: bool, maxLinksExceeded: bool, urlTruncated: bool,
    overlengthPrefix: Option<string>, scannedHtml: bool, scannedPlain: bool)

  function BodyAccount(r: Recognizer, html: Option<Surface>, plain: Option<Surface>): Account {
    var a := if html.Some? then SurfaceAccount(r, START, html.value, true) else START;
    if plain.Some? then SurfaceAccount(r, a, plain.value, false) else a
  }

  /** What holds at the start and is kept by every step and every look beyond a window holds of the whole scan. */
  lemma BodyKeeps(r: Recognizer, inv: (Account, seq<Note>) -> bool, html: Option<Surface>, plain: Option<Surface>)
    requires Preserved(r, inv) && TailLeads(r, inv, inv) && inv(START, [])
    ensures inv(BodyAccount(r, html, plain), BodyNotes(r, html, plain))
  {
    var a := if html.Some? then SurfaceAccount(r, START, html.value, true) else START;
    var log := if html.Some? then SurfaceNotes(r, html.value, true) else [];
    if html.Some? {
      SurfaceLeads(r, inv, inv, START, [], html.value, true);
      assert [] + log == log;
    }
    if plain.Some? {
      SurfaceLeads(r, inv, inv, a, log, plain.value, false);
    }
    assert log + [] == log;
  }

  /** The HTML tail holds a candidate the HTML window did not meet. */
  predicate FreshBeyondHtml(r: Recognizer, html: Option<Surface>) {
    html.Some? && html.value.windowed
    && AnyFresh(Steps(START, WindowNotes(r, html.value, true)).s.seen, BeyondNotes(r, html.value, true))
  }

  /** A tail without new candidates changes nothing. */
  ghost predicate QuietTails(r: Recognizer, inv: (Account, seq<Note>) -> bool) {
    forall a: Account, log: seq<Note>, notes: seq<Note> {:trigger inv(a, log), IsTail(r, notes)} ::
      inv(a, log) && IsTail(r, notes) && !AnyFresh(a.s.seen, notes) ==> inv(a, log + notes)
  }

  lemma QuietSurface(r: Recognizer, inv: (Account, seq<Note>) -> bool, html: Surface)
    requires Preserved(r, inv) && QuietTails(r, inv) && inv(START, []) && !FreshBeyondHtml(r, Some(html))
    ensures inv(SurfaceAccount(r, START, html, true), SurfaceNotes(r, html, true))
  {
    var inside, beyond := WindowNotes(r, html, true), BeyondNotes(r, html, true);
    WindowIsInWindow(r, html, true);
    StepsPreserve(r, inv, START, [], inside);
    BeyondIsTail(r, html, true);
    assert [] + inside == inside && inside + [] == inside;
  }

  /** The same where looking beyond a window loses the property, but only the last surface's tail holds anything new. */
  lemma BodyEnds(r: Recognizer, inv: (Account, seq<Note>) -> bool, final: (Account, seq<Note>) -> bool,
                 html: Option<Surface>, plain: Option<Surface>)
    requires Preserved(r, inv) && TailLeads(r, inv, final) && QuietTails(r, inv) && inv(START, [])
    requires forall a: Account, log: seq<Note> {:trigger inv(a, log)} {:trigger final(a, log)} :: inv(a, log) ==> final(a, log)
    requires plain.Some? ==> !FreshBeyondHtml(r, html)
    ensures final(BodyAccount(r, html, plain), BodyNotes(r, html, plain))
  {
    var a := if html.Some? then SurfaceAccount(r, START, html.value, true) else START;
    var log := if html.Some? then SurfaceNotes(r, html.value, true) else [];
    if html.Some? {
      SurfaceLeads(r, inv, final, START, [], html.value, true);
      assert [] + log == log;
    }
    if plain.Some? {
      if html.Some? {
        QuietSurface(r, inv, html.value);
      }
      SurfaceLeads(r, inv, final, a, log, plain.value, false);
    }
    assert log + [] == log;
  }

  lemma StartSound(r: Recognizer, start: Account)
    requires start == START
    ensures Sound(r, start.s, start.f, []) && DropsReal(start.s, [])
  {
  }

  lemma SoundPreserved(r: Recognizer, inv: (Account, seq<Note>) -> bool)
    requires forall b: Account, l: seq<Note> {:trigger inv(b, l)} :: inv(b, l) <==> Sound(r, b.s, b.f, l)
    ensures Preserved(r, inv) && TailLeads(r, inv, inv)
  {
    forall b: Account, l: seq<Note>, n: Note | inv(b, l) && Final(r, n.url) && n.kind != Tail
      ensures inv(Step(b, n), l + [n])
    {
      StepSound(r, b, l, n);
    }
    forall b: Account, l: seq<Note>, notes: seq<Note> | inv(b, l) && IsTail(r, notes)
      ensures inv(TailStep(b, notes), l + notes)
    {
      TailSound(r, b, l, notes);
    }
  }

  lemma BodySound(r: Recognizer, html: Option<Surface>, plain: Option<Surface>)
    ensures var b := BodyAccount(r, html, plain);
            Sound(r, b.s, b.f, BodyNotes(r, html, plain))
  {
    var inv: (Account, seq<Note>) -> bool := (b: Account, l: seq<Note>) => Sound(r, b.s, b.f, l);
    SoundPreserved(r, inv);
    StartSound(r, START);
    BodyKeeps(r, inv, html, plain);
  }

  /** A drop has a candidate that is no hit to show for it, unless it was seen beyond the HTML window and plain text followed. */
  lemma BodyMissed(r: Recognizer, html: Option<Surface>, plain: Option<Surface>)
    requires plain.Some? ==> !FreshBeyondHtml(r, html)
    ensures var b := BodyAccount(r, html, plain);
            b.s.dropped ==> Missed(b.s.hits, BodyNotes(r, html, plain))
  {
    var inv: (Account, seq<Note>) -> bool := (b: Account, l: seq<Note>) => Sound(r, b.s, b.f, l) && DropsReal(b.s, l);
    var final: (Account, seq<Note>) -> bool := (b: Account, l: seq<Note>) => b.s.dropped ==> Missed(b.s.hits, l);
    forall b: Account, l: seq<Note>, n: Note | inv(b, l) && Final(r, n.url) && n.kind != Tail
      ensures inv(Step(b, n), l + [n])
    {
      StepSound(r, b, l, n);
    }
    forall b: Account, l: seq<Note> | inv(b, l)
      ensures final(b, l)
    {
      if b.s.dropped {
        RealIsMissed(b.s, l);
      }
    }
    forall b: Account, l: seq<Note>, notes: seq<Note> | inv(b, l) && IsTail(r, notes)
      ensures final(TailStep(b, notes), l + notes)
    {
      TailMissed(r, b, l, notes);
    }
    forall b: Account, l: seq<Note>, notes: seq<Note> | inv(b, l) && IsTail(r, notes) && !AnyFresh(b.s.seen, notes)
      ensures inv(b, l + notes)
    {
      TailSound(r, b, l, notes);
      RealStays(b.s, l, notes);
    }
    StartSound(r, START);
    BodyEnds(r, inv, final, html, plain);
  }

  lemma RealStays(s: State, log: seq<Note>, notes: seq<Note>)
    requires DropsReal(s, log)
    ensures DropsReal(s, log + notes)
  {
    if s.dropped {
      var k :| 0 <= k < |log| && Lost(log[k], s.hits, s.seen);
      assert (log + notes)[k] == log[k];
    }
  }

  /** Nothing takes a drop back. */
  lemma {:induction false} DroppedStays(a: Account, notes: seq<Note>)
    requires a.s.dropped
    ensures Steps(a, notes).s.dropped
  {
    if notes != [] {
      DroppedStays(a, notes[..|notes| - 1]);
    }
  }

  lemma FreshDrops(r: Recognizer, html: Option<Surface>, plain: Option<Surface>)
    requires FreshBeyondHtml(r, html)
    ensures BodyAccount(r, html, plain).s.dropped
  {
    var a := SurfaceAccount(r, START, html.value, true);
    if plain.Some? {
      DroppedStays(a, WindowNotes(r, plain.value, false));
    }
  }

  // ---- the tail, read off the input ----

  /** URLs met in the window that are remembered without being hits: cut off, or too long. */
  function Remembered(log: seq<Note>): set<string> {
    set n | n in log && (n.kind == Edge || !Legal(n)) :: n.url
  }

  lemma RememberedAppend(log: seq<Note>, n: Note)
    ensures Remembered(log + [n]) == Remembered(log) + if n.kind == Edge || !Legal(n) then {n.url} else {}
  {
    forall u | u in Remembered(log)
      ensures u in Remembered(log + [n])
    {
      var m :| m in log && (m.kind == Edge || !Legal(m)) && m.url == u;
      assert m in log + [n];
    }
    assert n in log + [n];
  }

  /** A candidate beyond the HTML window that is neither one of the window's hits nor remembered from it. */
  predicate NewBeyondHtml(r: Recognizer, html: Option<Surface>) {
    html.Some? && html.value.windowed &&
    var inside := WindowNotes(r, html.value, true);
    AnyFresh(Urls(Capped(Chosen(inside))) + Remembered(inside), BeyondNotes(r, html.value, true))
  }

  lemma StepSeen(r: Recognizer, a: Account, log: seq<Note>, n: Note)
    requires Sound(r, a.s, a.f, log) && n.kind != Tail && a.s.seen == Urls(a.s.hits) + Remembered(log)
    ensures Step(a, n).s.seen == Urls(Step(a, n).s.hits) + Remembered(log + [n])
  {
    RememberedAppend(log, n);
    UrlsAppend(a.s.hits, Hit(n.url, n.source));
  }

  ghost predicate SeenKnown(s: State, log: seq<Note>) {
    s.seen == Urls(s.hits) + Remembered(log)
  }

  lemma SeenPreserved(r: Recognizer, inv: (Account, seq<Note>) -> bool)
    requires forall b: Account, l: seq<Note> {:trigger inv(b, l)} :: inv(b, l) <==> Sound(r, b.s, b.f, l) && SeenKnown(b.s, l)
    ensures Preserved(r, inv)
  {
    forall b: Account, l: seq<Note>, n: Note | inv(b, l) && Final(r, n.url) && n.kind != Tail
      ensures inv(Step(b, n), l + [n])
    {
      StepSound(r, b, l, n);
      StepSeen(r, b, l, n);
    }
  }

  lemma StartSeen(start: Account)
    requires start == START
    ensures SeenKnown(start.s, [])
  {
  }

  lemma WindowSeen(r: Recognizer, notes: seq<Note>)
    requires InWindow(r, notes)
    ensures HitsRight(Steps(START, notes).s, notes) && SeenKnown(Steps(START, notes).s, notes)
  {
    var inv: (Account, seq<Note>) -> bool := (b: Account, l: seq<Note>) => Sound(r, b.s, b.f, l) && SeenKnown(b.s, l);
    SeenPreserved(r, inv);
    StartSound(r, START);
    StartSeen(START);
    StepsPreserve(r, inv, START, [], notes);
    assert [] + notes == notes;
  }

  lemma FreshIsNew(r: Recognizer, html: Option<Surface>)
    ensures FreshBeyondHtml(r, html) <==> NewBeyondHtml(r, html)
  {
    if html.Some? {
      WindowIsInWindow(r, html.value, true);
      WindowSeen(r, WindowNotes(r, html.value, true));
    }
  }

  /** The mark, exactly, for every scan: some candidate is not a hit, or the HTML tail held one the HTML window did not know. */
  lemma MarkIs(r: Recognizer, html: Option<Surface>, plain: Option<Surface>)
    ensures var b := BodyAccount(r, html, plain);
            b.s.dropped <==> Missed(b.s.hits, BodyNotes(r, html, plain)) || NewBeyondHtml(r, html)
  {
    FreshIsNew(r, html);
    BodySound(r, html, plain);
    if FreshBeyondHtml(r, html) {
      FreshDrops(r, html, plain);
    } else {
      BodyMissed(r, html, plain);
    }
  }

  /**
   When the mark says no more than that some candidate is not a hit: it overstates exactly on scans whose HTML tail holds
   something new although all candidates end among the hits, which takes a plain body after a windowed HTML body.
   */
  lemma MarkExactIff(r: Recognizer, html: Option<Surface>, plain: Option<Surface>)
    ensures var b, log := BodyAccount(r, html, plain), BodyNotes(r, html, plain);
            && b.s.hits == Capped(Chosen(log))
            && ((b.s.dropped <==> Missed(b.s.hits, log)) <==> !NewBeyondHtml(r, html) || Missed(Capped(Chosen(log)), log))
            && (NewBeyondHtml(r, html) && !Missed(Capped(Chosen(log)), log) ==> plain.Some?)
  {
    MarkIs(r, html, plain);
    BodySound(r, html, plain);
    if plain.None? {
      BodyMissed(r, html, plain);
    }
  }

  lemma TailMissed(r: Recognizer, a: Account, log: seq<Note>, notes: seq<Note>)
    requires HitsRight(a.s, log) && DropsReal(a.s, log)
    ensures var b := TailStep(a, notes);
            b.s.dropped ==> Missed(b.s.hits, log + notes)
  {
    MissedAppend(a.s.hits, log, notes);
    if AnyFresh(a.s.seen, notes) {
      FreshIsMissed(a.s, log, notes);
    } else if a.s.dropped {
      RealIsMissed(a.s, log);
    }
  }

  lemma WindowFinal(r: Recognizer, a: Account, log: seq<Note>, sf: Surface, html: bool)
    requires Sound(r, a.s, a.f, log)
    ensures forall u | u in Steps(a, WindowNotes(r, sf, html)).s.seen :: Final(r, u)
  {
    WindowIsInWindow(r, sf, html);
    StepsSound(r, a, log, WindowNotes(r, sf, html));
  }

  // ---- what the hits are when nothing is windowed ----

  predicate AllWhole(log: seq<Note>) {
    forall k | 0 <= k < |log| :: log[k].kind == Whole
  }

  lemma {:induction false} ChosenAreClaimed(log: seq<Note>)
    ensures forall h | h in Chosen(log) :: Claimed(log, h.url) && |h.url| <= MAX_URL_LEN
  {
    if log != [] {
      var n := |log| - 1;
      ChosenAreClaimed(log[..n]);
      assert log == log[..n] + [log[n]];
      forall h | h in Chosen(log)
        ensures Claimed(log, h.url)
      {
        ClaimedAppend(log[..n], log[n], h.url);
      }
    }
  }

  /** No URL is chosen twice. */
  lemma {:induction false} ChosenDistinct(log: seq<Note>, i: nat, j: nat)
    requires i < j < |Chosen(log)|
    ensures Chosen(log)[i].url != Chosen(log)[j].url
  {
    var n := |log| - 1;
    if j < |Chosen(log[..n])| {
      ChosenDistinct(log[..n], i, j);
    } else {
      ChosenAreClaimed(log[..n]);
      assert Chosen(log)[i] in Chosen(log[..n]);
    }
  }

  /** Without a window every legal URL is chosen, and where it comes first: the choice only grows with the text. */
  lemma {:induction false} ChosenComplete(log: seq<Note>, k: nat)
    requires AllWhole(log) && k < |log|
    ensures Legal(log[k]) ==> log[k].url in Urls(Chosen(log[..k + 1]))
    ensures Chosen(log[..k + 1]) <= Chosen(log)
  {
    var front := log[..k + 1];
    assert front[..k] == log[..k];
    ChosenAppend(log[..k], log[k]);
    assert front == log[..k] + [log[k]];
    if Legal(log[k]) {
      if Claimed(log[..k], log[k].url) {
        var j :| 0 <= j < k && Claims(log[j]) && log[j].url == log[k].url;
        ChosenComplete(log[..k], j);
        assert log[..k][..j + 1] == log[..j + 1];
        UrlsPrefix(Chosen(log[..j + 1]), Chosen(log[..k]), log[k].url);
        UrlsPrefix(Chosen(log[..k]), Chosen(front), log[k].url);
      } else {
        UrlsAppend(Chosen(log[..k]), Hit(log[k].url, log[k].source));
      }
    }
    ChosenGrows(log, k + 1);
  }

  lemma UrlsPrefix(a: seq<Hit>, b: seq<Hit>, url: string)
    requires a <= b && url in Urls(a)
    ensures url in Urls(b)
  {
    var h :| h in a && h.url == url;
    assert h in b;
  }

  lemma {:induction false} ChosenGrows(log: seq<Note>, k: nat)
    requires k <= |log|
    ensures Chosen(log[..k]) <= Chosen(log)
  {
    if k == |log| {
      assert log[..k] == log;
    } else {
      var n := |log| - 1;
      ChosenGrows(log[..n], k);
      assert log[..n][..k] == log[..k];
    }
  }

  /** The first occurrence of every URL of legal length, in order. */
  function FirstLegal(log: seq<Note>): seq<Hit> {
    if log == [] then []
    else
      var n := |log| - 1;
      FirstLegal(log[..n])
      + if Legal(log[n]) && forall j | 0 <= j < n :: log[j].url != log[n].url then [Hit(log[n].url, log[n].source)] else []
  }

  lemma {:induction false} ChosenIsFirstLegal(log: seq<Note>)
    requires AllWhole(log)
    ensures Chosen(log) == FirstLegal(log)
  {
    if log != [] {
      var n := |log| - 1;
      ChosenIsFirstLegal(log[..n]);
      if Legal(log[n]) {
        FirstIffUnclaimed(log, n);
      }
    }
  }

  lemma FirstIffUnclaimed(log: seq<Note>, n: nat)
    requires AllWhole(log) && n < |log| && Legal(log[n])
    ensures Claimed(log[..n], log[n].url) <==> exists j | 0 <= j < n :: log[j].url == log[n].url
  {
    if j :| 0 <= j < n && log[j].url == log[n].url {
      assert Claims(log[..n][j]) && log[..n][j].url == log[n].url;
    }
    if Claimed(log[..n], log[n].url) {
      var j :| 0 <= j < n && Claims(log[..n][j]) && log[..n][j].url == log[n].url;
      assert log[j].url == log[n].url;
    }
  }

  predicate Unwindowed(sf: Option<Surface>) {
    sf.None? || !sf.value.windowed
  }

  lemma {:induction false} HrefsWhole(r: Recognizer, hrefs: seq<Span>)
    ensures AllWhole(HrefNotes(r, hrefs))
  {
    if hrefs != [] {
      HrefsWhole(r, hrefs[..|hrefs| - 1]);
    }
  }

  lemma {:induction false} BaresWhole(r: Recognizer, sf: Surface, bares: seq<Span>, source: LinkSource, skip: seq<Span>)
    requires !sf.windowed
    ensures AllWhole(BareNotes(r, sf, bares, source, skip))
  {
    if bares != [] {
      BaresWhole(r, sf, bares[..|bares| - 1], source, skip);
    }
  }

  lemma SurfaceWhole(r: Recognizer, sf: Surface, html: bool)
    requires !sf.windowed
    ensures AllWhole(SurfaceNotes(r, sf, html))
  {
    HrefsWhole(r, sf.hrefs);
    BaresWhole(r, sf, sf.bares, HtmlBare, sf.hrefs);
    BaresWhole(r, sf, sf.bares, PlainBare, []);
  }

  /** Bodies that fit the window only have whole candidates, and the hits are the first occurrences of legal URLs. */
  lemma UnwindowedHits(r: Recognizer, html: Option<Surface>, plain: Option<Surface>)
    requires Unwindowed(html) && Unwindowed(plain)
    ensures AllWhole(BodyNotes(r, html, plain)) && Chosen(BodyNotes(r, html, plain)) == FirstLegal(BodyNotes(r, html, plain))
  {
    if html.Some? {
      SurfaceWhole(r, html.value, true);
    }
    if plain.Some? {
      SurfaceWhole(r, plain.value, false);
    }
    ChosenIsFirstLegal(BodyNotes(r, html, plain));
  }

  /** One surface: the window first, then a look beyond it. */
  method ScanSurface(acc: ScanAccum, sf: Surface, html: bool, ghost log: seq<Note>)
    requires Sound(acc.r, acc.Now().s, acc.Now().f, log)
    modifies acc
    ensures acc.Now() == SurfaceAccount(acc.r, old(acc.Now()), sf, html)
    ensures acc.windowCapped == (old(acc.windowCapped) || sf.windowed)
  {
    ghost var start := acc.Now();
    WindowFinal(acc.r, start, log, sf, html);
    if sf.windowed {
      acc.windowCapped := true;
    }
    if html {
      acc.CollectHrefs(sf);
      acc.CollectBares(sf, HtmlBare, sf.hrefs);
      StepsConcat(start, HrefNotes(acc.r, sf.hrefs), BareNotes(acc.r, sf, sf.bares, HtmlBare, sf.hrefs));
    } else {
      acc.CollectBares(sf, PlainBare, []);
    }
    if sf.windowed {
      acc.NoteUnseenIn(sf.tailBares, sf.tailHrefs, if html then HtmlBare else PlainBare);
    }
  }

  /** Where the mark is not exact: a link beyond the HTML window is counted as dropped although the plain body then yields it. */
  lemma WindowedHtmlCanRecover(r: Recognizer, u: string, html: Option<Surface>, plain: Option<Surface>)
    requires u != "" && |u| <= MAX_URL_LEN && !r.isSafeLinks(u) && r.isDocument(u)
    requires html == Some(Surface([], [], 0, true, NotCut, [u], []))
    requires plain == Some(Surface([], [Span(0, |u|, u)], |u|, false, NotCut, [], []))
    ensures BodyAccount(r, html, plain).s.dropped && !Missed(BodyAccount(r, html, plain).s.hits, BodyNotes(r, html, plain))
  {
    var tail, whole := Note(u, HtmlBare, Tail), Note(u, PlainBare, Whole);
    assert Classify(r, u) == Some(Found(u, false, false));
    RecoveredAccount(r, u, html, plain);
    RecoveredNotes(r, u, html, plain, [tail, whole]);
    NoneMissed(Hit(u, PlainBare), tail, whole);
  }

  lemma RecoveredAccount(r: Recognizer, u: string, html: Option<Surface>, plain: Option<Surface>)
    requires u != "" && Classify(r, u) == Some(Found(u, false, false)) && |u| <= MAX_URL_LEN
    requires html == Some(Surface([], [], 0, true, NotCut, [u], []))
    requires plain == Some(Surface([], [Span(0, |u|, u)], |u|, false, NotCut, [], []))
    ensures BodyAccount(r, html, plain).s == State([Hit(u, PlainBare)], {u}, true)
  {
    TailOfOne(r, u, html.value, Note(u, HtmlBare, Tail));
    WindowOfOne(r, u, plain.value, Note(u, PlainBare, Whole));
    KeptAfterDrop(u, Note(u, PlainBare, Whole));
  }

  lemma RecoveredNotes(r: Recognizer, u: string, html: Option<Surface>, plain: Option<Surface>, notes: seq<Note>)
    requires u != "" && Classify(r, u) == Some(Found(u, false, false)) && |u| <= MAX_URL_LEN
    requires html == Some(Surface([], [], 0, true, NotCut, [u], []))
    requires plain == Some(Surface([], [Span(0, |u|, u)], |u|, false, NotCut, [], []))
    requires notes == [Note(u, HtmlBare, Tail), Note(u, PlainBare, Whole)]
    ensures BodyNotes(r, html, plain) == notes
  {
    TailOfOne(r, u, html.value, Note(u, HtmlBare, Tail));
    WindowOfOne(r, u, plain.value, Note(u, PlainBare, Whole));
  }

  lemma KeptAfterDrop(u: string, whole: Note)
    requires |u| <= MAX_URL_LEN && whole == Note(u, PlainBare, Whole)
    ensures Steps(Account(State([], {}, true), Flags(true, false, false, None)), [whole]).s == State([Hit(u, PlainBare)], {u}, true)
  {
    OneStep(Account(State([], {}, true), Flags(true, false, false, None)), whole);
  }

  lemma NoneMissed(hit: Hit, first: Note, second: Note)
    requires first.url == second.url == hit.url
    ensures !Missed([hit], [first, second])
  {
    var hits := [hit];
    assert hits[0].url in Urls(hits);
  }

  lemma TailOfOne(r: Recognizer, u: string, html: Surface, tail: Note)
    requires u != "" && Classify(r, u) == Some(Found(u, false, false)) && tail == Note(u, HtmlBare, Tail) && |u| <= MAX_URL_LEN
    requires html == Surface([], [], 0, true, NotCut, [u], [])
    ensures WindowNotes(r, html, true) == [] && BeyondNotes(r, html, true) == [tail]
    ensures SurfaceAccount(r, START, html, true) == Account(State([], {}, true), Flags(true, false, false, None))
  {
    var cands := [u];
    assert cands + [] == cands && cands[..0] == [];
    assert TailNotes(r, cands, HtmlBare) == TailNotes(r, cands[..0], HtmlBare) + Notes(r, u, HtmlBare, Tail);
    NoSteps(START);
    OneFresh(START.s.seen, tail);
  }

  lemma WindowOfOne(r: Recognizer, u: string, plain: Surface, whole: Note)
    requires u != "" && Classify(r, u) == Some(Found(u, false, false)) && whole == Note(u, PlainBare, Whole)
    requires plain == Surface([], [Span(0, |u|, u)], |u|, false, NotCut, [], [])
    ensures WindowNotes(r, plain, false) == [whole] && BeyondNotes(r, plain, false) == []
  {
    var bares := plain.bares;
    assert bares[..0] == [];
    assert BareNotes(r, plain, bares, PlainBare, [])
        == BareNotes(r, plain, bares[..0], PlainBare, []) + BareNote(r, plain, bares[0], PlainBare, []);
  }
}
