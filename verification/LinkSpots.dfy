/** The hits of a link scan and its marks, told from the matches in the bodies themselves: each at its own spot, in reading order. */
module LinkSpots {
  import opened Common
  import opened LinkScan

  // ---- what a candidate yields ----

  /** The text is a document link, or a wrapper whose target is one. */
  predicate Yields(r: Recognizer, cand: string, url: string, wrapped: bool) {
    && cand != "" && r.isDocument(url) && !r.isSafeLinks(url)
    && if wrapped then r.isSafeLinks(cand) && r.target(cand) == Some(url) && url != "" else url == cand
  }

  lemma NotesMean(r: Recognizer, cand: string, source: LinkSource, kind: Kind, note: Note)
    ensures note in Notes(r, cand, source, kind) <==>
            exists wrapped :: Yields(r, cand, note.url, wrapped) && note.source == (if wrapped then SafeLinksUnwrap else source) && note.kind == kind
    ensures |Notes(r, cand, source, kind)| <= 1
  {
    if note in Notes(r, cand, source, kind) {
      assert Yields(r, cand, note.url, Classify(r, cand).value.unwrapped);
    }
  }

  // ---- where candidates are ----

  datatype Part = Href | Bare | BeyondBare | BeyondHref

  /** A place in one of the two bodies. */
  datatype Spot = Spot(inPlain: bool, part: Part, index: nat)

  function PartOrder(part: Part): nat {
    match part
    case Href => 0
    case Bare => 1
    case BeyondBare => 2
    case BeyondHref => 3
  }

  /** Reading order: the HTML body first; in a body the href values, then the bare URLs, then what lies beyond the window. */
  predicate Before(a: Spot, b: Spot) {
    if a.inPlain != b.inPlain then !a.inPlain
    else if a.part != b.part then PartOrder(a.part) < PartOrder(b.part)
    else a.index < b.index
  }

  /** The bare URL lies within an href value. */
  ghost predicate Covered(m: Span, hrefs: seq<Span>) {
    exists k: nat :: k < |hrefs| && hrefs[k].start <= m.start && m.end <= hrefs[k].end
  }

  /** The bare URL reaches the end of a window that cuts it. */
  predicate Cut(sf: Surface, m: Span) {
    sf.windowed && m.end == sf.textLen && sf.cut.CutOff?
  }

  /** The spot of a body holds the text, to be read in this way; href values count in HTML only. */
  ghost predicate Holds(sf: Surface, html: bool, part: Part, index: nat, text: string, kind: Kind) {
    match part
    case Href => html && index < |sf.hrefs| && text == sf.hrefs[index].cand && kind == Whole
    case Bare =>
      && index < |sf.bares| && !(html && Covered(sf.bares[index], sf.hrefs))
      && if Cut(sf, sf.bares[index]) then sf.cut.whole == Some(text) && kind == Edge else text == sf.bares[index].cand && kind == Whole
    case BeyondBare => sf.windowed && index < |sf.tailBares| && text == sf.tailBares[index] && kind == Tail
    case BeyondHref => sf.windowed && index < |sf.tailHrefs| && text == sf.tailHrefs[index] && kind == Tail
  }

  function SourceOf(html: bool, part: Part): LinkSource {
    if !html then PlainBare else if part == Href then HtmlHref else HtmlBare
  }

  ghost predicate MetIn(r: Recognizer, sf: Surface, html: bool, part: Part, index: nat, note: Note) {
    exists text, wrapped ::
      && Holds(sf, html, part, index, text, note.kind) && Yields(r, text, note.url, wrapped)
      && note.source == (if wrapped then SafeLinksUnwrap else SourceOf(html, part))
  }

  /** A link is met at the spot. */
  ghost predicate Met(r: Recognizer, html: Option<Surface>, plain: Option<Surface>, spot: Spot, note: Note) {
    if spot.inPlain then plain.Some? && MetIn(r, plain.value, false, spot.part, spot.index, note)
    else html.Some? && MetIn(r, html.value, true, spot.part, spot.index, note)
  }

  // ---- the log of a scan, spot by spot ----

  /** The notes are what is met at the spots, which are all spots of the part of the body below the bound, in order. */
  ghost predicate PartTraced(r: Recognizer, sf: Surface, html: bool, part: Part, bound: nat, notes: seq<Note>, spots: seq<nat>) {
    && |spots| == |notes|
    && (forall i {:trigger spots[i]} | 0 <= i < |spots| :: spots[i] < bound && MetIn(r, sf, html, part, spots[i], notes[i]))
    && (forall i, j | 0 <= i < j < |spots| :: spots[i] < spots[j])
    && (forall k: nat, note {:trigger MetIn(r, sf, html, part, k, note)} | k < bound && MetIn(r, sf, html, part, k, note) ::
          IndexMet(notes, spots, k, note))
  }

  ghost predicate IndexMet(notes: seq<Note>, spots: seq<nat>, k: nat, note: Note)
    requires |spots| == |notes|
  {
    exists i :: 0 <= i < |spots| && spots[i] == k && notes[i] == note
  }

  /** One more place of the part, with what is met there. */
  lemma PartNext(r: Recognizer, sf: Surface, html: bool, part: Part, bound: nat, next: nat, notes: seq<Note>, spots: seq<nat>, more: seq<Note>)
    returns (later: seq<nat>)
    requires PartTraced(r, sf, html, part, bound, notes, spots) && next == bound + 1 && |more| <= 1
    requires forall note :: note in more <==> MetIn(r, sf, html, part, bound, note)
    ensures PartTraced(r, sf, html, part, next, notes + more, later)
  {
    var all := notes + more;
    later := if more == [] then spots else spots + [bound];
    forall k: nat, note | k < next && MetIn(r, sf, html, part, k, note)
      ensures IndexMet(all, later, k, note)
    {
      if k < bound {
        assert IndexMet(notes, spots, k, note);
        var i :| 0 <= i < |spots| && spots[i] == k && notes[i] == note;
        assert later[i] == k && all[i] == note;
      } else {
        assert note in more;
        assert later[|spots|] == k && all[|spots|] == note;
      }
    }
  }

  lemma MetAlone(r: Recognizer, sf: Surface, html: bool, part: Part, index: nat, text: string, kind: Kind, note: Note)
    requires forall t, k :: Holds(sf, html, part, index, t, k) <==> t == text && k == kind
    ensures MetIn(r, sf, html, part, index, note) <==> note in Notes(r, text, SourceOf(html, part), kind)
  {
    NotesMean(r, text, SourceOf(html, part), kind, note);
  }

  lemma {:induction false} HrefsTraced(r: Recognizer, sf: Surface, n: nat) returns (spots: seq<nat>)
    requires n <= |sf.hrefs|
    ensures PartTraced(r, sf, true, Href, n, HrefNotes(r, sf.hrefs[..n]), spots)
  {
    if n == 0 {
      spots := [];
    } else {
      var m := n - 1;
      var before := HrefsTraced(r, sf, m);
      MoreHrefs(r, sf.hrefs, m, n);
      var more := Notes(r, sf.hrefs[m].cand, HtmlHref, Whole);
      forall note
        ensures note in more <==> MetIn(r, sf, true, Href, m, note)
      {
        MetAlone(r, sf, true, Href, m, sf.hrefs[m].cand, Whole, note);
      }
      spots := PartNext(r, sf, true, Href, m, n, HrefNotes(r, sf.hrefs[..m]), before, more);
    }
  }

  lemma CoveredIs(m: Span, hrefs: seq<Span>)
    ensures Inside(m, hrefs) <==> Covered(m, hrefs)
  {
  }

  /** What a bare URL contributes is what is met there. */
  lemma BareMeans(r: Recognizer, sf: Surface, html: bool, k: nat, note: Note)
    requires k < |sf.bares|
    ensures note in BareNote(r, sf, sf.bares[k], SourceOf(html, Bare), if html then sf.hrefs else []) <==> MetIn(r, sf, html, Bare, k, note)
    ensures |BareNote(r, sf, sf.bares[k], SourceOf(html, Bare), if html then sf.hrefs else [])| <= 1
  {
    var m := sf.bares[k];
    CoveredIs(m, if html then sf.hrefs else []);
    if html && Covered(m, sf.hrefs) {
    } else if Cut(sf, m) {
      if sf.cut.whole.Some? {
        MetAlone(r, sf, html, Bare, k, sf.cut.whole.value, Edge, note);
        NotesMean(r, sf.cut.whole.value, SourceOf(html, Bare), Edge, note);
      }
    } else {
      MetAlone(r, sf, html, Bare, k, m.cand, Whole, note);
      NotesMean(r, m.cand, SourceOf(html, Bare), Whole, note);
    }
  }

  lemma {:induction false} BaresTraced(r: Recognizer, sf: Surface, html: bool, n: nat) returns (spots: seq<nat>)
    requires n <= |sf.bares|
    ensures PartTraced(r, sf, html, Bare, n, BareNotes(r, sf, sf.bares[..n], SourceOf(html, Bare), if html then sf.hrefs else []), spots)
  {
    if n == 0 {
      spots := [];
    } else {
      var m := n - 1;
      var source, skip := SourceOf(html, Bare), if html then sf.hrefs else [];
      var before := BaresTraced(r, sf, html, m);
      MoreBares(r, sf, m, n, source, skip);
      var more := BareNote(r, sf, sf.bares[m], source, skip);
      forall note
        ensures note in more <==> MetIn(r, sf, html, Bare, m, note)
        ensures |more| <= 1
      {
        BareMeans(r, sf, html, m, note);
      }
      spots := PartNext(r, sf, html, Bare, m, n, BareNotes(r, sf, sf.bares[..m], source, skip), before, more);
    }
  }

  function TailOf(sf: Surface, part: Part): seq<string> {
    if part == BeyondBare then sf.tailBares else sf.tailHrefs
  }

  lemma {:induction false} TailTraced(r: Recognizer, sf: Surface, html: bool, part: Part, n: nat) returns (spots: seq<nat>)
    requires (part == BeyondBare || part == BeyondHref) && sf.windowed && n <= |TailOf(sf, part)|
    ensures PartTraced(r, sf, html, part, n, TailNotes(r, TailOf(sf, part)[..n], if html then HtmlBare else PlainBare), spots)
  {
    if n == 0 {
      spots := [];
    } else {
      var m := n - 1;
      var source, cands := SourceOf(html, part), TailOf(sf, part);
      var before := TailTraced(r, sf, html, part, m);
      MoreTail(r, cands, m, n, source);
      var more := Notes(r, cands[m], source, Tail);
      forall note
        ensures note in more <==> MetIn(r, sf, html, part, m, note)
        ensures |more| <= 1
      {
        MetAlone(r, sf, html, part, m, cands[m], Tail, note);
        NotesMean(r, cands[m], source, Tail, note);
      }
      spots := PartNext(r, sf, html, part, m, n, TailNotes(r, cands[..m], source), before, more);
    }
  }

  // ---- from the parts to both bodies ----

  /** Every note is met at its spot. */
  ghost predicate EachMet(r: Recognizer, html: Option<Surface>, plain: Option<Surface>, region: Spot -> bool, log: seq<Note>, spots: seq<Spot>) {
    |spots| == |log| && forall i {:trigger spots[i]} | 0 <= i < |spots| :: region(spots[i]) && Met(r, html, plain, spots[i], log[i])
  }

  ghost predicate InOrder(spots: seq<Spot>) {
    forall i, j | 0 <= i < j < |spots| :: Before(spots[i], spots[j])
  }

  /** What is met at a spot of the region is noted. */
  ghost predicate AllNoted(r: Recognizer, html: Option<Surface>, plain: Option<Surface>, region: Spot -> bool, log: seq<Note>, spots: seq<Spot>)
    requires |spots| == |log|
  {
    forall spot, note {:trigger Met(r, html, plain, spot, note)} | region(spot) && Met(r, html, plain, spot, note) ::
      MetBy(log, spots, spot, note)
  }

  ghost predicate Traced(r: Recognizer, html: Option<Surface>, plain: Option<Surface>, region: Spot -> bool, log: seq<Note>, spots: seq<Spot>) {
    EachMet(r, html, plain, region, log, spots) && InOrder(spots) && AllNoted(r, html, plain, region, log, spots)
  }

  ghost predicate MetBy(log: seq<Note>, spots: seq<Spot>, spot: Spot, note: Note)
    requires |spots| == |log|
  {
    exists i :: 0 <= i < |spots| && spots[i] == spot && log[i] == note
  }

  function PartRegion(inPlain: bool, part: Part): Spot -> bool {
    (s: Spot) => s.inPlain == inPlain && s.part == part
  }

  /** How many places of a part there are. */
  function Size(sf: Surface, part: Part): nat {
    match part
    case Href => |sf.hrefs|
    case Bare => |sf.bares|
    case BeyondBare => |sf.tailBares|
    case BeyondHref => |sf.tailHrefs|
  }

  lemma PartSpots(r: Recognizer, html: Option<Surface>, plain: Option<Surface>, inPlain: bool, part: Part, notes: seq<Note>, spots: seq<nat>)
    returns (all: seq<Spot>)
    requires if inPlain then plain.Some? && PartTraced(r, plain.value, false, part, Size(plain.value, part), notes, spots)
             else html.Some? && PartTraced(r, html.value, true, part, Size(html.value, part), notes, spots)
    ensures Traced(r, html, plain, PartRegion(inPlain, part), notes, all)
  {
    var sf := if inPlain then plain.value else html.value;
    all := At(inPlain, part, spots);
    PartMet(r, html, plain, inPlain, sf, part, notes, spots);
    PartNoted(r, html, plain, inPlain, sf, part, notes, spots);
  }

  lemma PartMet(r: Recognizer, html: Option<Surface>, plain: Option<Surface>, inPlain: bool, sf: Surface, part: Part, notes: seq<Note>, spots: seq<nat>)
    requires (if inPlain then plain == Some(sf) else html == Some(sf)) && PartTraced(r, sf, !inPlain, part, Size(sf, part), notes, spots)
    ensures EachMet(r, html, plain, PartRegion(inPlain, part), notes, At(inPlain, part, spots))
    ensures InOrder(At(inPlain, part, spots))
  {
    var all := At(inPlain, part, spots);
    forall i {:trigger all[i]} | 0 <= i < |all|
      ensures all[i].inPlain == inPlain && all[i].part == part && Met(r, html, plain, all[i], notes[i])
    {
      assert MetIn(r, sf, !inPlain, part, spots[i], notes[i]);
    }
  }

  lemma PartNoted(r: Recognizer, html: Option<Surface>, plain: Option<Surface>, inPlain: bool, sf: Surface, part: Part, notes: seq<Note>, spots: seq<nat>)
    requires (if inPlain then plain == Some(sf) else html == Some(sf)) && PartTraced(r, sf, !inPlain, part, Size(sf, part), notes, spots)
    ensures AllNoted(r, html, plain, PartRegion(inPlain, part), notes, At(inPlain, part, spots))
  {
    forall spot: Spot, note | spot.inPlain == inPlain && spot.part == part && Met(r, html, plain, spot, note)
      ensures MetBy(notes, At(inPlain, part, spots), spot, note)
    {
      assert MetIn(r, sf, !inPlain, part, spot.index, note);
      assert spot.index < Size(sf, part);
      IndexMetIsMet(inPlain, part, notes, spots, spot.index, note);
    }
  }

  function At(inPlain: bool, part: Part, spots: seq<nat>): (r: seq<Spot>)
    ensures |r| == |spots| && forall i | 0 <= i < |r| :: r[i] == Spot(inPlain, part, spots[i])
  {
    seq(|spots|, i requires 0 <= i < |spots| => Spot(inPlain, part, spots[i]))
  }

  lemma IndexMetIsMet(inPlain: bool, part: Part, notes: seq<Note>, spots: seq<nat>, k: nat, note: Note)
    requires |spots| == |notes| && IndexMet(notes, spots, k, note)
    ensures MetBy(notes, At(inPlain, part, spots), Spot(inPlain, part, k), note)
  {
    var i :| 0 <= i < |spots| && spots[i] == k && notes[i] == note;
    assert At(inPlain, part, spots)[i] == Spot(inPlain, part, k);
  }

  lemma NothingTraced(r: Recognizer, html: Option<Surface>, plain: Option<Surface>, region: Spot -> bool)
    requires forall spot, note :: region(spot) ==> !Met(r, html, plain, spot, note)
    ensures Traced(r, html, plain, region, [], [])
  {
  }

  lemma Join(r: Recognizer, html: Option<Surface>, plain: Option<Surface>, first: Spot -> bool, second: Spot -> bool, both: Spot -> bool,
             log1: seq<Note>, spots1: seq<Spot>, log2: seq<Note>, spots2: seq<Spot>)
    requires Traced(r, html, plain, first, log1, spots1) && Traced(r, html, plain, second, log2, spots2)
    requires forall a, b | first(a) && second(b) :: Before(a, b)
    requires forall s :: both(s) <==> first(s) || second(s)
    ensures Traced(r, html, plain, both, log1 + log2, spots1 + spots2)
  {
    JoinMet(r, html, plain, first, second, both, log1, spots1, log2, spots2);
    JoinInOrder(first, second, spots1, spots2);
    JoinNoted(r, html, plain, first, second, both, log1, spots1, log2, spots2);
  }

  lemma JoinMet(r: Recognizer, html: Option<Surface>, plain: Option<Surface>, first: Spot -> bool, second: Spot -> bool, both: Spot -> bool,
                log1: seq<Note>, spots1: seq<Spot>, log2: seq<Note>, spots2: seq<Spot>)
    requires EachMet(r, html, plain, first, log1, spots1) && EachMet(r, html, plain, second, log2, spots2)
    requires forall s :: both(s) <==> first(s) || second(s)
    ensures EachMet(r, html, plain, both, log1 + log2, spots1 + spots2)
  {
    var log, spots := log1 + log2, spots1 + spots2;
    forall i {:trigger spots[i]} | 0 <= i < |spots|
      ensures both(spots[i]) && Met(r, html, plain, spots[i], log[i])
    {
      if i < |spots1| {
        assert spots[i] == spots1[i] && log[i] == log1[i];
      } else {
        assert spots[i] == spots2[i - |spots1|] && log[i] == log2[i - |spots1|];
      }
    }
  }

  lemma JoinInOrder(first: Spot -> bool, second: Spot -> bool, spots1: seq<Spot>, spots2: seq<Spot>)
    requires InOrder(spots1) && InOrder(spots2) && forall a, b | first(a) && second(b) :: Before(a, b)
    requires (forall i | 0 <= i < |spots1| :: first(spots1[i])) && (forall i | 0 <= i < |spots2| :: second(spots2[i]))
    ensures InOrder(spots1 + spots2)
  {
  }

  lemma JoinNoted(r: Recognizer, html: Option<Surface>, plain: Option<Surface>, first: Spot -> bool, second: Spot -> bool, both: Spot -> bool,
                  log1: seq<Note>, spots1: seq<Spot>, log2: seq<Note>, spots2: seq<Spot>)
    requires |spots1| == |log1| && |spots2| == |log2| && forall s :: both(s) <==> first(s) || second(s)
    requires AllNoted(r, html, plain, first, log1, spots1) && AllNoted(r, html, plain, second, log2, spots2)
    ensures AllNoted(r, html, plain, both, log1 + log2, spots1 + spots2)
  {
    forall spot, note | both(spot) && Met(r, html, plain, spot, note)
      ensures MetBy(log1 + log2, spots1 + spots2, spot, note)
    {
      if first(spot) {
        assert MetBy(log1, spots1, spot, note);
      } else {
        assert MetBy(log2, spots2, spot, note);
      }
      MetByConcat(log1, spots1, log2, spots2, spot, note);
    }
  }

  lemma MetByConcat(log1: seq<Note>, spots1: seq<Spot>, log2: seq<Note>, spots2: seq<Spot>, spot: Spot, note: Note)
    requires |spots1| == |log1| && |spots2| == |log2| && (MetBy(log1, spots1, spot, note) || MetBy(log2, spots2, spot, note))
    ensures MetBy(log1 + log2, spots1 + spots2, spot, note)
  {
    if MetBy(log1, spots1, spot, note) {
      var i :| 0 <= i < |spots1| && spots1[i] == spot && log1[i] == note;
      assert (spots1 + spots2)[i] == spot && (log1 + log2)[i] == note;
    } else {
      var i :| 0 <= i < |spots2| && spots2[i] == spot && log2[i] == note;
      assert (spots1 + spots2)[|spots1| + i] == spot && (log1 + log2)[|log1| + i] == note;
    }
  }

  function BodyRegion(inPlain: bool): Spot -> bool {
    (s: Spot) => s.inPlain == inPlain
  }

  function WindowRegion(inPlain: bool): Spot -> bool {
    (s: Spot) => s.inPlain == inPlain && (s.part == Href || s.part == Bare)
  }

  function TailRegion(inPlain: bool): Spot -> bool {
    (s: Spot) => s.inPlain == inPlain && (s.part == BeyondBare || s.part == BeyondHref)
  }

  lemma WindowSpots(r: Recognizer, html: Option<Surface>, plain: Option<Surface>, inPlain: bool, sf: Surface) returns (spots: seq<Spot>)
    requires if inPlain then plain == Some(sf) else html == Some(sf)
    ensures Traced(r, html, plain, WindowRegion(inPlain), WindowNotes(r, sf, !inPlain), spots)
  {
    var source, skip := SourceOf(!inPlain, Bare), if inPlain then [] else sf.hrefs;
    var bareIndexes := BaresTraced(r, sf, !inPlain, |sf.bares|);
    assert sf.bares[..|sf.bares|] == sf.bares && sf.hrefs[..|sf.hrefs|] == sf.hrefs;
    var bares := PartSpots(r, html, plain, inPlain, Bare, BareNotes(r, sf, sf.bares, source, skip), bareIndexes);
    if inPlain {
      NothingTraced(r, html, plain, PartRegion(inPlain, Href));
      Join(r, html, plain, PartRegion(inPlain, Href), PartRegion(inPlain, Bare), WindowRegion(inPlain),
           [], [], BareNotes(r, sf, sf.bares, source, skip), bares);
      spots := [] + bares;
      assert [] + BareNotes(r, sf, sf.bares, source, skip) == WindowNotes(r, sf, false);
    } else {
      var hrefIndexes := HrefsTraced(r, sf, |sf.hrefs|);
      var hrefs := PartSpots(r, html, plain, inPlain, Href, HrefNotes(r, sf.hrefs), hrefIndexes);
      Join(r, html, plain, PartRegion(inPlain, Href), PartRegion(inPlain, Bare), WindowRegion(inPlain),
           HrefNotes(r, sf.hrefs), hrefs, BareNotes(r, sf, sf.bares, source, skip), bares);
      spots := hrefs + bares;
    }
  }

  lemma TailSpots(r: Recognizer, html: Option<Surface>, plain: Option<Surface>, inPlain: bool, sf: Surface) returns (spots: seq<Spot>)
    requires sf.windowed && if inPlain then plain == Some(sf) else html == Some(sf)
    ensures Traced(r, html, plain, TailRegion(inPlain), BeyondNotes(r, sf, !inPlain), spots)
  {
    var source := if inPlain then PlainBare else HtmlBare;
    var bareIndexes := TailTraced(r, sf, !inPlain, BeyondBare, |sf.tailBares|);
    var hrefIndexes := TailTraced(r, sf, !inPlain, BeyondHref, |sf.tailHrefs|);
    assert sf.tailBares[..|sf.tailBares|] == sf.tailBares && sf.tailHrefs[..|sf.tailHrefs|] == sf.tailHrefs;
    var bares := PartSpots(r, html, plain, inPlain, BeyondBare, TailNotes(r, sf.tailBares, source), bareIndexes);
    var hrefs := PartSpots(r, html, plain, inPlain, BeyondHref, TailNotes(r, sf.tailHrefs, source), hrefIndexes);
    TailNotesConcat(r, sf.tailBares, sf.tailHrefs, source);
    Join(r, html, plain, PartRegion(inPlain, BeyondBare), PartRegion(inPlain, BeyondHref), TailRegion(inPlain),
         TailNotes(r, sf.tailBares, source), bares, TailNotes(r, sf.tailHrefs, source), hrefs);
    spots := bares + hrefs;
  }

  lemma SurfaceSpots(r: Recognizer, html: Option<Surface>, plain: Option<Surface>, inPlain: bool, sf: Surface) returns (spots: seq<Spot>)
    requires if inPlain then plain == Some(sf) else html == Some(sf)
    ensures Traced(r, html, plain, BodyRegion(inPlain), SurfaceNotes(r, sf, !inPlain), spots)
  {
    var inside := WindowSpots(r, html, plain, inPlain, sf);
    var beyond: seq<Spot> := [];
    if sf.windowed {
      beyond := TailSpots(r, html, plain, inPlain, sf);
    } else {
      NothingTraced(r, html, plain, TailRegion(inPlain));
    }
    Join(r, html, plain, WindowRegion(inPlain), TailRegion(inPlain), BodyRegion(inPlain),
         WindowNotes(r, sf, !inPlain), inside, if sf.windowed then BeyondNotes(r, sf, !inPlain) else [], beyond);
    spots := inside + beyond;
  }

  function Everywhere(): Spot -> bool {
    (s: Spot) => true
  }

  /** The log of a scan is what is met in the two bodies, spot by spot in reading order. */
  lemma BodySpots(r: Recognizer, html: Option<Surface>, plain: Option<Surface>) returns (spots: seq<Spot>)
    ensures Traced(r, html, plain, Everywhere(), BodyNotes(r, html, plain), spots)
  {
    var first: seq<Spot>, second: seq<Spot> := [], [];
    if html.Some? {
      first := SurfaceSpots(r, html, plain, false, html.value);
    } else {
      NothingTraced(r, html, plain, BodyRegion(false));
    }
    if plain.Some? {
      second := SurfaceSpots(r, html, plain, true, plain.value);
    } else {
      NothingTraced(r, html, plain, BodyRegion(true));
    }
    Join(r, html, plain, BodyRegion(false), BodyRegion(true), Everywhere(),
         if html.Some? then SurfaceNotes(r, html.value, true) else [], first,
         if plain.Some? then SurfaceNotes(r, plain.value, false) else [], second);
    spots := first + second;
  }

  // ---- which spots give the hits ----

  /** The URL, of legal length, is met in a window before the spot. */
  ghost predicate Taken(r: Recognizer, html: Option<Surface>, plain: Option<Surface>, spot: Spot, url: string) {
    |url| <= 2048 && exists s, n :: Before(s, spot) && Met(r, html, plain, s, n) && n.url == url && n.kind != Tail
  }

  /** The link is met whole at the spot, of legal length, and nowhere in a window before it. */
  ghost predicate Picks(r: Recognizer, html: Option<Surface>, plain: Option<Surface>, spot: Spot, hit: Hit) {
    |hit.url| <= 2048 && Met(r, html, plain, spot, Note(hit.url, hit.source, Whole)) && !Taken(r, html, plain, spot, hit.url)
  }

  ghost predicate PickedBy(hits: seq<Hit>, spots: seq<Spot>, spot: Spot, hit: Hit)
    requires |spots| == |hits|
  {
    exists i :: 0 <= i < |hits| && spots[i] == spot && hits[i] == hit
  }

  /** The hits are the first 50 picks, in reading order. */
  ghost predicate FirstPicks(r: Recognizer, html: Option<Surface>, plain: Option<Surface>, hits: seq<Hit>, spots: seq<Spot>) {
    && |spots| == |hits| <= 50 && InOrder(spots)
    && (forall i {:trigger spots[i]} | 0 <= i < |hits| :: Picks(r, html, plain, spots[i], hits[i]))
    && (forall spot, hit {:trigger Picks(r, html, plain, spot, hit)} | Picks(r, html, plain, spot, hit) ::
          PickedBy(hits, spots, spot, hit) || (|hits| == 50 && Before(spots[49], spot)))
  }

  ghost predicate HitsExplained(r: Recognizer, html: Option<Surface>, plain: Option<Surface>, hits: seq<Hit>) {
    exists spots :: FirstPicks(r, html, plain, hits, spots)
  }

  /** Some link is met that is not among the hits. */
  ghost predicate LinkMissed(r: Recognizer, html: Option<Surface>, plain: Option<Surface>, hits: seq<Hit>) {
    exists spot, note :: Met(r, html, plain, spot, note) && forall h | h in hits :: h.url != note.url
  }

  /** A link longer than 2048 characters is met, first at this spot. */
  ghost predicate FirstTooLong(r: Recognizer, html: Option<Surface>, plain: Option<Surface>, spot: Spot, note: Note) {
    && Met(r, html, plain, spot, note) && |note.url| > 2048
    && forall s, n :: Before(s, spot) && Met(r, html, plain, s, n) ==> |n.url| <= 2048
  }

  predicate PickedAt(log: seq<Note>, k: nat)
    requires k < |log|
  {
    log[k].kind == Whole && Legal(log[k]) && !Claimed(log[..k], log[k].url)
  }

  function HitAt(log: seq<Note>, k: nat): Hit
    requires k < |log|
  {
    Hit(log[k].url, log[k].source)
  }

  ghost predicate ChosenFrom(log: seq<Note>, n: nat, hits: seq<Hit>, picks: seq<nat>) {
    && n <= |log| && |picks| == |hits| && Ascending(picks)
    && (forall i {:trigger picks[i]} | 0 <= i < |picks| :: picks[i] < n && PickedAt(log, picks[i]) && hits[i] == HitAt(log, picks[i]))
    && (forall k: nat {:trigger PickedAt(log, k)} | k < n && PickedAt(log, k) :: k in picks)
  }

  lemma {:induction false} ChosenAt(log: seq<Note>, n: nat) returns (picks: seq<nat>)
    requires n <= |log|
    ensures ChosenFrom(log, n, Chosen(log[..n]), picks)
  {
    if n == 0 {
      picks := [];
    } else {
      var m := n - 1;
      var before := ChosenAt(log, m);
      ChosenNext(log, m, n);
      picks := if PickedAt(log, m) then before + [m] else before;
      PicksNext(log, m, n, Chosen(log[..m]), before, Chosen(log[..n]), picks);
    }
  }

  lemma ChosenNext(log: seq<Note>, m: nat, n: nat)
    requires n == m + 1 <= |log|
    ensures Chosen(log[..n]) == Chosen(log[..m]) + (if PickedAt(log, m) then [HitAt(log, m)] else [])
  {
    assert log[..n][..m] == log[..m];
  }

  lemma PicksNext(log: seq<Note>, m: nat, n: nat, hits: seq<Hit>, picks: seq<nat>, later: seq<Hit>, laterPicks: seq<nat>)
    requires n == m + 1 <= |log| && ChosenFrom(log, m, hits, picks)
    requires if PickedAt(log, m) then later == hits + [HitAt(log, m)] && laterPicks == picks + [m] else later == hits && laterPicks == picks
    ensures ChosenFrom(log, n, later, laterPicks)
  {
    forall k: nat | k < n && PickedAt(log, k)
      ensures k in laterPicks
    {
      if k < m {
        assert k in picks;
      }
    }
  }

  /** Before a spot means earlier in the log. */
  lemma EarlierIs(log: seq<Note>, spots: seq<Spot>, i: nat, k: nat)
    requires InOrder(spots) && i < |spots| && k < |spots|
    ensures Before(spots[i], spots[k]) <==> i < k
  {
    if k < i {
      assert Before(spots[k], spots[i]);
    }
  }

  lemma TakenIs(r: Recognizer, html: Option<Surface>, plain: Option<Surface>, log: seq<Note>, spots: seq<Spot>, k: nat, url: string)
    requires Traced(r, html, plain, Everywhere(), log, spots) && k < |log|
    ensures Taken(r, html, plain, spots[k], url) <==> Claimed(log[..k], url)
  {
    if Taken(r, html, plain, spots[k], url) {
      var s, n :| Before(s, spots[k]) && Met(r, html, plain, s, n) && n.url == url && n.kind != Tail;
      assert MetBy(log, spots, s, n);
      var i :| 0 <= i < |spots| && spots[i] == s && log[i] == n;
      EarlierIs(log, spots, i, k);
      assert Claims(log[..k][i]);
    }
    if Claimed(log[..k], url) {
      var j :| 0 <= j < k && Claims(log[..k][j]) && log[..k][j].url == url;
      EarlierIs(log, spots, j, k);
      assert Met(r, html, plain, spots[j], log[j]);
    }
  }

  lemma PickedIs(r: Recognizer, html: Option<Surface>, plain: Option<Surface>, log: seq<Note>, spots: seq<Spot>, k: nat)
    requires Traced(r, html, plain, Everywhere(), log, spots) && k < |log| && PickedAt(log, k)
    ensures Picks(r, html, plain, spots[k], HitAt(log, k))
  {
    TakenIs(r, html, plain, log, spots, k, log[k].url);
    assert Met(r, html, plain, spots[k], log[k]) && log[k] == Note(log[k].url, log[k].source, Whole);
  }

  lemma PickIndex(r: Recognizer, html: Option<Surface>, plain: Option<Surface>, log: seq<Note>, spots: seq<Spot>, spot: Spot, hit: Hit)
    returns (k: nat)
    requires Traced(r, html, plain, Everywhere(), log, spots) && Picks(r, html, plain, spot, hit)
    ensures k < |log| && spots[k] == spot && PickedAt(log, k) && HitAt(log, k) == hit
  {
    var note := Note(hit.url, hit.source, Whole);
    assert MetBy(log, spots, spot, note);
    k :| 0 <= k < |spots| && spots[k] == spot && log[k] == note;
    TakenIs(r, html, plain, log, spots, k, hit.url);
  }

  /** The hits of a scan are explained spot by spot. */
  lemma HitsAreExplained(r: Recognizer, html: Option<Surface>, plain: Option<Surface>)
    ensures HitsExplained(r, html, plain, Capped(Chosen(BodyNotes(r, html, plain))))
  {
    var log := BodyNotes(r, html, plain);
    var spots := BodySpots(r, html, plain);
    var picks := ChosenAt(log, |log|);
    assert log[..|log|] == log;
    var hits := Capped(Chosen(log));
    var places := seq(|hits|, i requires 0 <= i < |hits| => spots[picks[i]]);
    CappedPicks(r, html, plain, log, spots, Chosen(log), picks, hits, places);
    assert FirstPicks(r, html, plain, hits, places);
  }

  lemma CappedPicks(r: Recognizer, html: Option<Surface>, plain: Option<Surface>, log: seq<Note>, spots: seq<Spot>,
                    all: seq<Hit>, picks: seq<nat>, hits: seq<Hit>, places: seq<Spot>)
    requires Traced(r, html, plain, Everywhere(), log, spots) && ChosenFrom(log, |log|, all, picks) && hits == Capped(all)
    requires |places| == |hits| && forall i | 0 <= i < |hits| :: places[i] == spots[picks[i]]
    ensures FirstPicks(r, html, plain, hits, places)
  {
    forall i {:trigger places[i]} | 0 <= i < |hits|
      ensures Picks(r, html, plain, places[i], hits[i])
    {
      PickedIs(r, html, plain, log, spots, picks[i]);
    }
    forall i, j | 0 <= i < j < |hits|
      ensures Before(places[i], places[j])
    {
      EarlierIs(log, spots, picks[i], picks[j]);
    }
    forall spot, hit | Picks(r, html, plain, spot, hit)
      ensures PickedBy(hits, places, spot, hit) || (|hits| == 50 && Before(places[49], spot))
    {
      PickPlaced(r, html, plain, log, spots, all, picks, hits, places, spot, hit);
    }
  }

  lemma PickPlaced(r: Recognizer, html: Option<Surface>, plain: Option<Surface>, log: seq<Note>, spots: seq<Spot>,
                   all: seq<Hit>, picks: seq<nat>, hits: seq<Hit>, places: seq<Spot>, spot: Spot, hit: Hit)
    requires Traced(r, html, plain, Everywhere(), log, spots) && ChosenFrom(log, |log|, all, picks) && hits == Capped(all)
    requires |places| == |hits| && forall i | 0 <= i < |hits| :: places[i] == spots[picks[i]]
    requires Picks(r, html, plain, spot, hit)
    ensures PickedBy(hits, places, spot, hit) || (|hits| == 50 && Before(places[49], spot))
  {
    var k := PickIndex(r, html, plain, log, spots, spot, hit);
    var i :| 0 <= i < |picks| && picks[i] == k;
    if i < |hits| {
      assert places[i] == spot && hits[i] == hit;
    } else {
      EarlierIs(log, spots, picks[49], k);
    }
  }

  lemma MissedMeans(r: Recognizer, html: Option<Surface>, plain: Option<Surface>, hits: seq<Hit>)
    ensures Missed(hits, BodyNotes(r, html, plain)) <==> LinkMissed(r, html, plain, hits)
  {
    var log := BodyNotes(r, html, plain);
    var spots := BodySpots(r, html, plain);
    if Missed(hits, log) {
      var k :| 0 <= k < |log| && log[k].url !in Urls(hits);
      assert Met(r, html, plain, spots[k], log[k]);
    }
    if LinkMissed(r, html, plain, hits) {
      var spot, note :| Met(r, html, plain, spot, note) && forall h | h in hits :: h.url != note.url;
      assert MetBy(log, spots, spot, note);
      var k :| 0 <= k < |spots| && spots[k] == spot && log[k] == note;
    }
  }

  lemma {:induction false} FirstOverlongAt(log: seq<Note>) returns (k: nat)
    requires FirstOverlong(log).Some?
    ensures k < |log| && !Legal(log[k]) && FirstOverlong(log).value == log[k].url && forall j | 0 <= j < k :: Legal(log[j])
  {
    var n := |log| - 1;
    if FirstOverlong(log[..n]).Some? {
      k := FirstOverlongAt(log[..n]);
    } else {
      FirstOverlongIs(log[..n]);
      k := n;
    }
  }

  /** A link is too long exactly when a first one is, and that one is shown. */
  lemma TooLongMeans(r: Recognizer, html: Option<Surface>, plain: Option<Surface>)
    ensures var first := FirstOverlong(BodyNotes(r, html, plain));
            && (first.None? ==> forall spot, note :: Met(r, html, plain, spot, note) ==> |note.url| <= 2048)
            && (first.Some? ==> exists spot, note :: FirstTooLong(r, html, plain, spot, note) && first.value == note.url)
  {
    var log := BodyNotes(r, html, plain);
    var spots := BodySpots(r, html, plain);
    FirstOverlongIs(log);
    if FirstOverlong(log).None? {
      forall spot, note | Met(r, html, plain, spot, note)
        ensures |note.url| <= 2048
      {
        assert MetBy(log, spots, spot, note);
      }
    } else {
      var k := FirstOverlongAt(log);
      assert Met(r, html, plain, spots[k], log[k]);
      forall s, n | Before(s, spots[k]) && Met(r, html, plain, s, n)
        ensures |n.url| <= 2048
      {
        assert MetBy(log, spots, s, n);
        var i :| 0 <= i < |spots| && spots[i] == s && log[i] == n;
        EarlierIs(log, spots, i, k);
      }
      assert FirstTooLong(r, html, plain, spots[k], log[k]);
    }
  }

  // ---- what is new beyond the HTML window ----

  /** The hits of the HTML body by itself. */
  ghost function HitsAlone(r: Recognizer, html: Option<Surface>): (hits: seq<Hit>)
    ensures HitsExplained(r, html, None, hits)
  {
    HitsAreExplained(r, html, None);
    Capped(Chosen(BodyNotes(r, html, None)))
  }

  /** A link beyond the HTML window that is no hit of the HTML body, and was not met in its window cut off or too long. */
  ghost predicate NewInTail(r: Recognizer, html: Option<Surface>, spot: Spot, note: Note) {
    && Met(r, html, None, spot, note) && note.kind == Tail
    && (forall h | h in HitsAlone(r, html) :: h.url != note.url)
    && (forall s, n :: Met(r, html, None, s, n) && n.url == note.url && n.kind != Tail ==> n.kind == Whole && |n.url| <= 2048)
  }

  lemma WindowOrTail(r: Recognizer, html: Option<Surface>, spot: Spot, note: Note)
    requires Met(r, html, None, spot, note)
    ensures if note.kind == Tail then TailRegion(false)(spot) && html.Some? && html.value.windowed else WindowRegion(false)(spot)
  {
  }

  lemma RememberedMeans(r: Recognizer, html: Surface, url: string, spots: seq<Spot>)
    requires Traced(r, Some(html), None, WindowRegion(false), WindowNotes(r, html, true), spots)
    ensures url in Remembered(WindowNotes(r, html, true)) <==>
            exists s, n :: Met(r, Some(html), None, s, n) && n.url == url && n.kind != Tail && !(n.kind == Whole && |n.url| <= 2048)
  {
    var inside := WindowNotes(r, html, true);
    WindowIsInWindow(r, html, true);
    if url in Remembered(inside) {
      var n :| n in inside && (n.kind == Edge || !Legal(n)) && n.url == url;
      var i :| 0 <= i < |inside| && inside[i] == n;
      assert Met(r, Some(html), None, spots[i], inside[i]);
    }
    if s, n :| Met(r, Some(html), None, s, n) && n.url == url && n.kind != Tail && !(n.kind == Whole && |n.url| <= 2048) {
      WindowOrTail(r, Some(html), s, n);
      assert MetBy(inside, spots, s, n);
    }
  }

  lemma AloneIs(r: Recognizer, html: Surface)
    ensures HitsAlone(r, Some(html)) == Capped(Chosen(WindowNotes(r, html, true)))
  {
    var inside, log := WindowNotes(r, html, true), BodyNotes(r, Some(html), None);
    BeyondIsTail(r, html, true);
    TailsChooseNothing(inside, if html.windowed then BeyondNotes(r, html, true) else []);
    assert log == inside + (if html.windowed then BeyondNotes(r, html, true) else []);
  }

  lemma UrlsMean(hits: seq<Hit>, url: string)
    ensures url in Urls(hits) <==> exists h :: h in hits && h.url == url
  {
  }

  lemma NewBeyondMeans(r: Recognizer, html: Option<Surface>)
    ensures NewBeyondHtml(r, html) <==> exists spot, note :: NewInTail(r, html, spot, note)
  {
    if html.Some? && html.value.windowed {
      var inside, beyond := WindowNotes(r, html.value, true), BeyondNotes(r, html.value, true);
      var window := WindowSpots(r, html, None, false, html.value);
      var tail := TailSpots(r, html, None, false, html.value);
      AloneIs(r, html.value);
      BeyondIsTail(r, html.value, true);
      if NewBeyondHtml(r, html) {
        var k :| 0 <= k < |beyond| && beyond[k].url !in Urls(Capped(Chosen(inside))) + Remembered(inside);
        RememberedMeans(r, html.value, beyond[k].url, window);
        UrlsMean(HitsAlone(r, html), beyond[k].url);
        assert NewInTail(r, html, tail[k], beyond[k]);
      }
      if spot, note :| NewInTail(r, html, spot, note) {
        WindowOrTail(r, html, spot, note);
        assert MetBy(beyond, tail, spot, note);
        RememberedMeans(r, html.value, note.url, window);
        UrlsMean(HitsAlone(r, html), note.url);
      }
    } else if spot, note :| NewInTail(r, html, spot, note) {
      WindowOrTail(r, html, spot, note);
    }
  }

  // ---- the scan ----

  /**
   A whole scan. The hits are the first 50 picks in reading order. It is marked truncated exactly when some link met is not
   among them, or the HTML body held a new one beyond its window; a link too long is reported exactly when one is met, by
   the beginning of the first. Without windows the hits are the first occurrences of the URLs of legal length.
   */
  method ScanBodyCloudLinks(r: Recognizer, html: Option<Surface>, plain: Option<Surface>) returns (scan: BodyCloudScan)
    ensures HitsExplained(r, html, plain, scan.hits)
    ensures scan.truncated <==> LinkMissed(r, html, plain, scan.hits) || exists spot, note :: NewInTail(r, html, spot, note)
    ensures !(html.Some? && html.value.windowed && plain.Some?) ==> (scan.truncated <==> LinkMissed(r, html, plain, scan.hits))
    ensures scan.urlTruncated <==> exists spot, note :: Met(r, html, plain, spot, note) && |note.url| > 2048
    ensures scan.overlengthPrefix.Some? <==> scan.urlTruncated
    ensures scan.overlengthPrefix.Some? ==>
              exists spot, note :: FirstTooLong(r, html, plain, spot, note) && scan.overlengthPrefix.value == note.url[..2048]
    ensures scan.truncated == (scan.windowDropped || scan.maxLinksExceeded || scan.urlTruncated)
    ensures scan.maxLinksExceeded ==> |scan.hits| == 50
    ensures scan.windowCapped == ((html.Some? && html.value.windowed) || (plain.Some? && plain.value.windowed))
    ensures scan.scannedHtml == html.Some? && scan.scannedPlain == plain.Some?
    ensures scan.hits == Capped(Chosen(BodyNotes(r, html, plain)))
    ensures Unwindowed(html) && Unwindowed(plain) ==> scan.hits == Capped(FirstLegal(BodyNotes(r, html, plain)))
  {
    var acc := new ScanAccum(r);
    ghost var log: seq<Note> := [];
    StartSound(r, acc.Now());
    if html.Some? {
      ghost var none: Option<Surface> := None;
      BodySound(r, html, none);
      ScanSurface(acc, html.value, true, log);
      log := SurfaceNotes(r, html.value, true);
      assert BodyNotes(r, html, none) == log;
    }
    if plain.Some? {
      ScanSurface(acc, plain.value, false, log);
    }
    scan := BodyCloudScan(acc.hits, acc.truncated || acc.windowDropped || acc.maxLinksExceeded || acc.urlTruncated,
                          acc.windowCapped, acc.windowDropped, acc.maxLinksExceeded, acc.urlTruncated, acc.overlengthPrefix,
                          html.Some?, plain.Some?);
    assert acc.Now() == BodyAccount(r, html, plain);
    BodySound(r, html, plain);
    MarkIs(r, html, plain);
    HitsAreExplained(r, html, plain);
    MissedMeans(r, html, plain, scan.hits);
    TooLongMeans(r, html, plain);
    NewBeyondMeans(r, html);
    if !(html.Some? && html.value.windowed && plain.Some?) {
      BodyMissed(r, html, plain);
    }
    if Unwindowed(html) && Unwindowed(plain) {
      UnwindowedHits(r, html, plain);
    }
  }
}
