/** Exactly which fragments a body is cut into. */
module FragmentPlan {
  import opened Text
  import opened LineCutter
  import opened LineReading
  import opened Fragmenter
  import W = Windows
  import S = Sections
  import R = SectionReading
  import M = SectionMerging

  /** Where a fragment comes from: a section, and a window over its lines. */
  datatype Place = Place(section: nat, window: W.Window)

  ghost predicate InPlace(lines: seq<Line>, sections: seq<S.Section>, p: Place) {
    && p.section < |sections|
    && var s, w := sections[p.section], p.window;
       && s.first <= w.first < w.last <= s.last <= |lines|
       && if W.FitsWhole(lines, s.first, s.last) then w == W.Window(s.first, s.last)
          else W.EndsWell(lines, w, s.last)
  }

  /** Place `b` comes next: the next section's start where `a` ends its section, and else the window after it. */
  ghost predicate GoesOn(lines: seq<Line>, sections: seq<S.Section>, a: Place, b: Place) {
    && a.section < |sections| && b.section < |sections|
    && if a.window.last == sections[a.section].last
       then b.section == a.section + 1 && b.window.first == sections[b.section].first
       else b.section == a.section && W.Overlaps(lines, a.window, b.window)
  }

  /** Places that go through the sections from number `from` to the end, window by window. */
  ghost predicate Plan(lines: seq<Line>, sections: seq<S.Section>, places: seq<Place>, from: nat) {
    && from < |sections| && places != []
    && (forall p :: p in places ==> InPlace(lines, sections, p))
    && places[0].section == from && places[0].window.first == sections[from].first
    && var n := |places| - 1;
       && places[n].section == |sections| - 1 && places[n].window.last == sections[|sections| - 1].last
       && forall i, j :: 0 <= i < j <= n && j == i + 1 ==> GoesOn(lines, sections, places[i], places[j])
  }

  ghost predicate SpansAt(lines: seq<Line>, sections: seq<S.Section>, places: seq<Place>, spans: seq<Span>) {
    && |spans| == |places|
    && forall k :: 0 <= k < |spans| ==>
         && InPlace(lines, sections, places[k])
         && spans[k] == SpanOf(lines, places[k].window, sections[places[k].section].trail)
  }

  /** The places of one section. */
  function PlacesOf(section: nat, ws: seq<W.Window>): (places: seq<Place>)
    ensures |places| == |ws| && forall k :: 0 <= k < |ws| ==> places[k] == Place(section, ws[k])
  {
    seq(|ws|, k requires 0 <= k < |ws| => Place(section, ws[k]))
  }

  lemma SectionPlan(lines: seq<Line>, sections: seq<S.Section>, i: nat)
    requires W.Bounded(lines) && i < |sections| && sections[i].first < sections[i].last <= |lines|
    ensures var s := sections[i];
            var ws := W.SectionWindows(lines, s.first, s.last);
            var places := PlacesOf(i, ws);
            && W.Slides(lines, ws, s.first, s.last)
            && SpansAt(lines, sections, places, SectionSpans(lines, s))
            && forall j, k :: 0 <= j < k < |places| && k == j + 1 ==> GoesOn(lines, sections, places[j], places[k])
  {
    hide W.Overlaps, W.EndsWell, W.FitsWhole, W.SectionWindows;
    var s := sections[i];
    W.SectionWindowsSlide(lines, s.first, s.last);
    var ws := W.SectionWindows(lines, s.first, s.last);
    var places := PlacesOf(i, ws);
    forall k | 0 <= k < |ws| ensures InPlace(lines, sections, places[k]) {
      assert ws[k] in ws;
      if W.FitsWhole(lines, s.first, s.last) { assert k == 0; }
    }
    forall j, k | 0 <= j < k < |ws| && k == j + 1 ensures GoesOn(lines, sections, places[j], places[k]) {
      OverlapsWithin(lines, ws[j], ws[k], s.last);
    }
  }

  lemma OverlapsWithin(lines: seq<Line>, a: W.Window, b: W.Window, last: nat)
    requires W.Overlaps(lines, a, b) && b.last <= last
    ensures a.last != last
  {
  }

  lemma PlanMore(lines: seq<Line>, sections: seq<S.Section>, i: nat, ws: seq<W.Window>, rest: seq<Place>)
    requires Plan(lines, sections, rest, i + 1) && i + 1 < |sections|
    requires sections[i].first < sections[i].last <= |lines|
    requires W.Slides(lines, ws, sections[i].first, sections[i].last)
    requires forall p :: p in PlacesOf(i, ws) ==> InPlace(lines, sections, p)
    requires var places := PlacesOf(i, ws);
             forall j, k :: 0 <= j < k < |places| && k == j + 1 ==> GoesOn(lines, sections, places[j], places[k])
    ensures Plan(lines, sections, PlacesOf(i, ws) + rest, i)
  {
    hide InPlace, W.Overlaps;
    var first := PlacesOf(i, ws);
    var all := first + rest;
    forall j, k | 0 <= j < k < |all| && k == j + 1 ensures GoesOn(lines, sections, all[j], all[k]) {
      if j >= |first| { assert all[j] == rest[j - |first|] && all[k] == rest[k - |first|]; }
    }
  }

  lemma {:induction false} SectionsPlan(lines: seq<Line>, sections: seq<S.Section>, i: nat) returns (places: seq<Place>)
    requires W.Bounded(lines) && i < |sections| && forall s :: s in sections ==> s.first < s.last <= |lines|
    ensures Plan(lines, sections, places, i)
    ensures SpansAt(lines, sections, places, AllSpans(lines, sections[i..]))
    decreases |sections| - i
  {
    hide InPlace, GoesOn, SectionSpans, W.SectionWindows, W.Slides;
    var s := sections[i];
    assert s in sections;
    var ws := W.SectionWindows(lines, s.first, s.last);
    SectionPlan(lines, sections, i);
    SlidesEnds(lines, ws, s.first, s.last);
    places := PlacesOf(i, ws);
    assert sections[i..][0] == s && sections[i..][1..] == sections[i + 1..];
    if i + 1 == |sections| {
      assert AllSpans(lines, sections[i..]) == SectionSpans(lines, s) + [];
    } else {
      var rest := SectionsPlan(lines, sections, i + 1);
      PlanMore(lines, sections, i, ws, rest);
      places := places + rest;
    }
  }

  lemma SlidesEnds(lines: seq<Line>, ws: seq<W.Window>, first: nat, last: nat)
    requires first < last <= |lines| && W.Slides(lines, ws, first, last)
    ensures ws != [] && ws[0].first == first && ws[|ws| - 1].last == last
  {
  }

  /** A body short enough is one fragment, without a trail. */
  predicate ShortBody(body: string, lines: seq<Line>) {
    W.WordsIn(lines, 0, |lines|) <= SHORT_PAGE_WORDS && Size(body) <= MAX_FRAGMENT_BYTES
  }

  /** The fragments of a body, said of its lines alone: what its lines are, where its sections start and what their
      trails are, which of them are merged, and where in them the fragments lie. */
  ghost predicate CutAsPlanned(body: string, source: bool, f: seq<Fragment>, lines: seq<Line>) {
    && Tiles(body, lines, 0, |body|) && (forall line :: line in lines ==> LineReads(body, line))
    && if ShortBody(body, lines) then f == [Fragment(0, 0, |body|, "", body)]
       else exists found, sections, places ::
              && R.SectionsAre(S.Texts(body, lines), source, found) && M.MergesWell(lines, found, sections)
              && Plan(lines, sections, places, 0) && FragmentsAt(body, lines, sections, places, f)
  }

  ghost predicate FragmentsAt(body: string, lines: seq<Line>, sections: seq<S.Section>, places: seq<Place>,
                              f: seq<Fragment>)
  {
    && |f| == |places|
    && forall k :: 0 <= k < |f| ==>
         && InPlace(lines, sections, places[k])
         && var w := places[k].window;
            && lines[w.first].start <= lines[w.last - 1].end <= |body|
            && f[k] == Fragment(k, lines[w.first].start, lines[w.last - 1].end, sections[places[k].section].trail,
                                body[lines[w.first].start..lines[w.last - 1].end])
  }

  lemma SpansPlanned(body: string, source: bool) returns (places: seq<Place>)
    requires body != "" && !ShortBody(body, LinesFrom(body, 0))
    ensures var lines, sections := LinesFrom(body, 0), BodySections(body, source);
            Plan(lines, sections, places, 0) && SpansAt(lines, sections, places, Spans(body, source))
  {
    hide Plan, SpansAt, AllSpans, S.MergedOf, S.SectionsOf;
    var lines, sections := LinesFrom(body, 0), BodySections(body, source);
    BodyLines(body);
    places := SectionsPlan(lines, sections, 0);
    assert sections[0..] == sections;
  }

  lemma FragmentsPlanned(body: string, source: bool)
    requires body != ""
    ensures CutAsPlanned(body, source, Fragments(body, source), LinesFrom(body, 0))
  {
    hide Plan, R.SectionsAre, M.MergesWell, S.MergedOf, S.SectionsOf, AllSpans, Chain, LineReads, Tiles;
    var lines, f := LinesFrom(body, 0), Fragments(body, source);
    LinesRead(body);
    BodyLines(body);
    if ShortBody(body, lines) {
      assert Spans(body, source) == [Span(0, |body|, "")];
      assert body[0..|body|] == body;
    } else {
      var texts := S.Texts(body, lines);
      var found := S.SectionsOf(texts, source);
      R.SectionsRead(texts, source);
      S.SectionsPartition(texts, source);
      M.MergedExactly(lines, found);
      var places := SpansPlanned(body, source);
      FragmentsAtSpans(body, source, lines, BodySections(body, source), places);
    }
  }

  lemma FragmentsAtSpans(body: string, source: bool, lines: seq<Line>, sections: seq<S.Section>, places: seq<Place>)
    requires SpansAt(lines, sections, places, Spans(body, source)) && body != ""
    ensures FragmentsAt(body, lines, sections, places, Fragments(body, source))
  {
    hide Spans, InPlace;
    var spans, f := Spans(body, source), Fragments(body, source);
    forall k | 0 <= k < |f|
      ensures f[k] == FragmentAt(body, k, spans[k]) && spans[k].start <= spans[k].end <= |body|
    {
    }
    InPlaceWithin(lines, sections, places);
  }

  lemma InPlaceWithin(lines: seq<Line>, sections: seq<S.Section>, places: seq<Place>)
    ensures forall k :: 0 <= k < |places| && InPlace(lines, sections, places[k]) ==>
              places[k].section < |sections| && places[k].window.first < places[k].window.last <= |lines|
  {
  }
}
