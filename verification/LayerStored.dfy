/** What the split stores of a layer's body, and what is read back of it: exactly, and by key. */
module LayerStored {
  import opened Options
  import opened Text
  import opened PageBodies
  import opened BodyRender
  import opened BodyParse
  import opened BodyRoundTrip
  import opened BodyNormal
  import opened BodyEdges
  import opened BodyReadBack
  import opened BodyLost
  import opened LayerPages
  import opened LayerFacts
  import opened LayerSections
  import opened LayerSplit

  // ---- what the split stores ------------------------------------------------------------------------

  lemma {:induction false} WithoutOk(names: Names, units: seq<Unit>, known: set<string>, layer: string)
    requires UnitsOk(units, layer)
    ensures UnitsOk(Without(names, units, known), layer)
  {
    if units != [] { WithoutOk(names, units[..|units| - 1], known, layer); }
  }

  lemma {:induction false} WithoutClosed(names: Names, units: seq<Unit>, known: set<string>)
    requires AllClosed(units)
    ensures AllClosed(Without(names, units, known))
  {
    if units != [] { WithoutClosed(names, units[..|units| - 1], known); }
  }

  /** What only the last unit of a section may be, only the last one left may be. */
  lemma WithoutFront(names: Names, units: seq<Unit>, known: set<string>)
    requires AllClosed(Front(units))
    ensures AllClosed(Front(Without(names, units, known)))
  {
    if units != [] {
      var w := Without(names, Front(units), known);
      WithoutClosed(names, Front(units), known);
      if KeyOf(names, units[|units| - 1]) in known {
        forall k | 0 <= k < |Front(w)| ensures Closed(Front(w)[k]) { assert Front(w)[k] == w[k]; }
      } else {
        assert Front(w + [units[|units| - 1]]) == w;
      }
    }
  }

  lemma {:induction false} RestWhole(names: Names, sections: seq<Section>, known: set<string>, layer: string)
    requires Whole(sections, layer)
    ensures Whole(Rest(names, sections, known), layer)
  {
    if sections != [] {
      var n := |sections| - 1;
      RestWhole(names, sections[..n], known, layer);
      assert SectionOk(sections[n], layer) && AllClosed(sections[n].units);
      WithoutOk(names, sections[n].units, known, layer);
      WithoutClosed(names, sections[n].units, known);
    }
  }

  lemma RestSound(names: Names, sections: seq<Section>, known: set<string>, layer: string)
    requires Sound(sections, layer)
    ensures Sound(Rest(names, sections, known), layer)
  {
    if sections != [] {
      var n := |sections| - 1;
      RestWhole(names, sections[..n], known, layer);
      WithoutOk(names, sections[n].units, known, layer);
      WithoutFront(names, sections[n].units, known);
      var before, units := Rest(names, sections[..n], known), Without(names, sections[n].units, known);
      if units == [] {
        WholeIsSound(before, layer);
      } else {
        assert (before + [Section(sections[n].heading, units)])[..|before|] == before;
      }
    }
  }

  /** The split leaves sections with units, only the first of them without a heading. */
  lemma {:induction false} RestHeaded(names: Names, sections: seq<Section>, known: set<string>)
    requires forall k :: 0 <= k < |sections| && sections[k].heading.None? ==> k == 0
    ensures var r := Rest(names, sections, known);
            NoneEmpty(r) && (forall k :: 0 <= k < |r| && r[k].heading.None? ==> k == 0) && (sections == [] ==> r == [])
  {
    if sections != [] { RestHeaded(names, sections[..|sections| - 1], known); }
  }

  lemma RelabeledUnit(u: Unit, from: string, layer: string)
    ensures UnitOk(u, from) ==> UnitOk(u.(layer := layer), layer)
    ensures Closed(u) ==> Closed(u.(layer := layer))
  {
    hide Runs, InFence, IsCallout;
  }

  lemma RelabeledOk(units: seq<Unit>, from: string, layer: string)
    requires UnitsOk(units, from)
    ensures UnitsOk(Relabel(units, layer), layer)
    ensures AllClosed(units) ==> AllClosed(Relabel(units, layer))
    ensures AllClosed(Front(units)) ==> AllClosed(Front(Relabel(units, layer)))
  {
    hide UnitOk, Closed, Relabel;
    forall k | 0 <= k < |units|
      ensures UnitOk(Relabel(units, layer)[k], layer) && (Closed(units[k]) ==> Closed(Relabel(units, layer)[k]))
    {
      RelabeledUnit(units[k], from, layer);
    }
    if AllClosed(Front(units)) {
      forall k | 0 <= k < |units| - 1 ensures Closed(Front(Relabel(units, layer))[k]) {
        assert Closed(Front(units)[k]);
      }
    }
  }

  lemma RelabeledWhole(sections: seq<Section>, from: string, layer: string)
    requires Whole(sections, from)
    ensures Whole(RelabelAll(sections, layer), layer)
  {
    var r := RelabelAll(sections, layer);
    forall k | 0 <= k < |r| ensures SectionOk(r[k], layer) && AllClosed(r[k].units) {
      assert SectionOk(sections[k], from) && AllClosed(sections[k].units);
      RelabeledOk(sections[k].units, from, layer);
    }
  }

  lemma RelabeledSound(sections: seq<Section>, from: string, layer: string)
    requires Sound(sections, from)
    ensures Sound(RelabelAll(sections, layer), layer)
  {
    if sections != [] {
      var n := |sections| - 1;
      RelabeledWhole(sections[..n], from, layer);
      RelabeledOk(sections[n].units, from, layer);
      assert RelabelAll(sections, layer)[..n] == RelabelAll(sections[..n], layer);
    }
  }

  /** The split stores nothing exactly when under no heading there is a unit the public page does not know. */
  lemma NothingStored(names: Names, text: seq<Line>, public: seq<Line>)
    ensures Split(names, text, public) == [""] <==>
              forall key :: Without(names, Gather(names, Parse(text, PUBLIC).sections, key),
                                    Known(names, Parse(public, PUBLIC).sections)) == []
  {
    hide Parse, Known, Without, Gather, Rest, Render, Sound, NoneEmpty;
    var sections, known := Parse(text, PUBLIC).sections, Known(names, Parse(public, PUBLIC).sections);
    var rest := Rest(names, sections, known);
    forall key ensures Gather(names, rest, key) == Without(names, Gather(names, sections, key), known) {
      GatherRest(names, sections, known, key);
    }
    if rest == [] {
      NoneGatheredAtAll(names);
    } else {
      ParseSound(text, PUBLIC);
      RestSound(names, sections, known, PUBLIC);
      RestFilled(names, sections, known);
      FirstGathered(names, rest);
      var key := SectionKeyOf(names, rest[|rest| - 1]);
      assert Without(names, Gather(names, sections, key), known) == Gather(names, rest, key) != [];
      SplitHasText(SplitBody(names, text, public), PUBLIC);
    }
  }

  lemma {:induction false} RestFilled(names: Names, sections: seq<Section>, known: set<string>)
    ensures NoneEmpty(Rest(names, sections, known))
  {
    if sections != [] { RestFilled(names, sections[..|sections| - 1], known); }
  }

  lemma NoneGatheredAtAll(names: Names)
    ensures forall key :: Gather(names, [], key) == []
  {
  }

  lemma FirstGathered(names: Names, sections: seq<Section>)
    requires sections != [] && NoneEmpty(sections)
    ensures Gather(names, sections, SectionKeyOf(names, sections[|sections| - 1])) != []
  {
  }

  lemma SplitHasText(b: Body, layer: string)
    requires b.sections != [] && NoneEmpty(b.sections) && Sound(b.sections, layer)
    ensures Render(b) != [""]
  {
    FirstLine(b, layer);
  }

  /** What the split stores is read back, as the layer's, exactly when it is printable. */
  lemma SplitReadsBack(names: Names, text: seq<Line>, public: seq<Line>, layer: string)
    requires SplitBody(names, text, public).sections != []
    ensures var rest := SplitBody(names, text, public);
            Parse(Split(names, text, public), layer) == Body(rest.title, RelabelAll(rest.sections, layer))
            <==> Printable(rest)
  {
    hide Settle, Filled, Rest, RelabelAll, Parse, Render;
    var rest := SplitBody(names, text, public);
    var parsed := Parse(text, PUBLIC);
    ParseSound(text, PUBLIC);
    ParsedTitle(text, PUBLIC);
    RestSound(names, parsed.sections, Known(names, Parse(public, PUBLIC).sections), PUBLIC);
    RestHeaded(names, parsed.sections, Known(names, Parse(public, PUBLIC).sections));
    RelabeledSound(rest.sections, PUBLIC, layer);
    var r := rest.(sections := RelabelAll(rest.sections, layer));
    RelabeledText(rest, layer);
    PrintsBack(r, layer);
    SettleFills(r.sections);
    FilledAll(r.sections);
  }

  // ---- what is read back, by key ------------------------------------------------------------------

  /** White space at the edges of a text makes no other key and no new link. */
  ghost predicate EdgeBlind(names: Names) {
    forall lines: seq<Line> ::
      && names.unit(StripHead(lines)) == names.unit(lines) == names.unit(StripTail(lines))
      && (names.target(StripTail(lines)).Some? ==> names.target(StripTail(lines)) == names.target(lines))
  }

  predicate HasText(lines: seq<Line>) { exists k :: 0 <= k < |lines| && !Blank(lines[k]) }

  /** More text makes another key. */
  ghost predicate Wordy(names: Names) {
    forall a: seq<Line>, b: seq<Line> :: HasText(b) ==> names.unit(a + b) != names.unit(a)
  }

  /** `a` stands for `b`: they have the same key, and `a` has no link of its own. */
  predicate StandsFor(names: Names, a: Unit, b: Unit, connections: bool) {
    && KeyOf(names, a) == KeyOf(names, b) && a.layer == b.layer
    && (LinkOf(names, a, connections).Some? ==> LinkOf(names, a, connections) == LinkOf(names, b, connections))
  }

  predicate StandFor(names: Names, a: seq<Unit>, b: seq<Unit>, connections: bool) {
    |a| == |b| && forall k :: 0 <= k < |a| ==> StandsFor(names, a[k], b[k], connections)
  }

  predicate SectionFor(names: Names, a: Section, b: Section) {
    a.heading == b.heading && StandFor(names, a.units, b.units, SectionKeyOf(names, b) == Some(CONNECTIONS))
  }

  predicate SectionsFor(names: Names, a: seq<Section>, b: seq<Section>) {
    |a| == |b| && forall k :: 0 <= k < |a| ==> SectionFor(names, a[k], b[k])
  }

  lemma {:induction false} GatherFor(names: Names, a: seq<Section>, b: seq<Section>, key: SectionKey)
    requires SectionsFor(names, a, b)
    ensures StandFor(names, Gather(names, a, key), Gather(names, b, key), key == Some(CONNECTIONS))
  {
    if a != [] {
      var n := |a| - 1;
      GatherFor(names, a[..n], b[..n], key);
      assert SectionFor(names, a[n], b[n]);
    }
  }

  lemma TailFor(names: Names, u: Unit, connections: bool)
    requires EdgeBlind(names)
    ensures StandsFor(names, TailUnit(u), u, connections)
  {
    hide StripTail, IsItem;
  }

  lemma TailUnitsFor(names: Names, units: seq<Unit>, connections: bool)
    requires EdgeBlind(names) && units != [] && !Swallowed(units)
    ensures StandFor(names, TailUnits(units), units, connections)
  {
    hide TailUnit;
    TailFor(names, units[|units| - 1], connections);
  }

  lemma TailedFor(names: Names, b: Body)
    requires EdgeBlind(names) && LastUnits(b) != [] && !Swallowed(LastUnits(b))
    ensures SectionsFor(names, Tailed(b).sections, b.sections)
  {
    hide TailUnits, Swallowed, EdgeBlind;
    var n := |b.sections| - 1;
    TailUnitsFor(names, b.sections[n].units, SectionKeyOf(names, b.sections[n]) == Some(CONNECTIONS));
  }

  lemma HeadFor(names: Names, u: Unit, layer: string)
    requires EdgeBlind(names) && UnitOk(u, layer)
    ensures StandsFor(names, HeadUnit(u), u, false)
  {
    hide ClassOf, Runs, IsCallout;
    UnitHasText(u, layer);
    assert HeadUnit(u).lines == StripHead(u.lines);
  }

  lemma ParedFor(names: Names, b: Body, layer: string)
    requires EdgeBlind(names) && (Opens(b) ==> UnitOk(b.sections[0].units[0], layer))
    ensures SectionsFor(names, Pared(b).sections, b.sections)
  {
    hide HeadUnit, UnitOk, EdgeBlind;
    if Opens(b) { HeadFor(names, b.sections[0].units[0], layer); }
  }

  lemma SectionsForFor(names: Names, a: seq<Section>, b: seq<Section>, c: seq<Section>)
    requires SectionsFor(names, a, b) && SectionsFor(names, b, c)
    ensures SectionsFor(names, a, c)
  {
    forall k | 0 <= k < |a| ensures SectionFor(names, a[k], c[k]) {
      assert SectionFor(names, a[k], b[k]) && SectionFor(names, b[k], c[k]);
    }
  }

  /** What keeps a stored text readable: a title that is more than the mark; no last item without text after
      another item; and a first paragraph whose first line, without the white space before it, is no title,
      no heading, and no start of a callout other than the paragraph itself. */
  predicate ReadsOn(b: Body) {
    b.sections != [] ==>
      && b.title != "#" && LastUnits(b) != [] && !Swallowed(LastUnits(b)) && (Opens(Tailed(b)) ==> HeadOk(Tailed(b)))
  }

  /** A body as the split leaves it. */
  predicate Storable(b: Body, layer: string) {
    b.sections != [] && UnderHeads(b.sections) && Sound(b.sections, layer) && TitleRead(b.title) && LastUnits(b) != []
  }

  /** Read back with its title and, section by section and in order, units that stand for its own. */
  lemma ReadBackFor(names: Names, b: Body, layer: string)
    requires EdgeBlind(names) && Storable(b, layer) && ReadsOn(b)
    ensures var back := Parse(Render(b), layer);
            back.title == b.title && SectionsFor(names, back.sections, b.sections)
  {
    hide Parse, Render, Tailed, Pared, UnderHeads, Sound, EdgeBlind;
    TailedFor(names, b);
    FirstTailedOk(b, layer);
    ParedFor(names, Tailed(b), layer);
    SectionsForFor(names, Pared(Tailed(b)).sections, Tailed(b).sections, b.sections);
    ReadBack(b, layer);
  }

  lemma FirstTailedOk(b: Body, layer: string)
    requires Storable(b, layer)
    ensures var t := Tailed(b); t.sections != [] && t.sections[0].units != [] && UnitOk(t.sections[0].units[0], layer)
  {
    hide Tailed;
    TailedSound(b, layer);
    TailedHeaded(b);
    TailedTitle(b);
    SoundHeading(Tailed(b).sections, 0, layer);
  }

  // ---- exactly when -----------------------------------------------------------------------------------

  predicate SameKeys(names: Names, a: seq<Unit>, b: seq<Unit>) {
    |a| == |b| && forall k :: 0 <= k < |a| ==> KeyOf(names, a[k]) == KeyOf(names, b[k])
  }

  /** The same title, and under each heading units of the same keys in the same order. */
  ghost predicate SameByKey(names: Names, back: Body, b: Body) {
    back.title == b.title
      && forall key :: SameKeys(names, Gather(names, back.sections, key), Gather(names, b.sections, key))
  }

  lemma LeadOf(names: Names, sections: seq<Section>)
    requires sections != [] && sections[0].heading.None? && forall k :: 0 <= k < |sections| ==>
             sections[k].heading.None? ==> k == 0
    ensures Gather(names, sections, None) == sections[0].units
  {
    GatherLead(names, sections);
  }

  lemma FirstKeyFor(names: Names, b: Body, layer: string)
    requires EdgeBlind(names) && OpenBody(b, layer)
    ensures b.sections[0].heading.None? && b.sections[0].units != []
    ensures names.unit(FirstUnit(b).lines) == KeyOf(names, b.sections[0].units[0])
  {
    hide HeadUnit, TailUnit, EdgeBlind, Sound;
    FirstTailedOk(b, layer);
    var units := b.sections[0].units;
    HeadFor(names, Tailed(b).sections[0].units[0], layer);
    if |b.sections| == 1 && |units| == 1 { TailFor(names, units[0], false); }
  }

  lemma MoreText(names: Names, a: seq<Line>, b: seq<Line>)
    requires Wordy(names) && HasText(b)
    ensures names.unit(a + b) != names.unit(a)
  {
  }

  /** A callout that takes less or more than the first unit has another key. */
  lemma CalloutKeyDiffers(names: Names, text: seq<Line>, m: nat, e: nat)
    requires Wordy(names) && m <= |text| && e <= |text|
    requires exists k :: (if e < m then e <= k < m else m <= k < e) && !Blank(text[k])
    ensures names.unit(text[..e]) != names.unit(text[..m])
  {
    hide Blank, Wordy;
    var k :| (if e < m then e <= k < m else m <= k < e) && !Blank(text[k]);
    var a, b := if e < m then e else m, if e < m then m else e;
    assert text[a..b][k - a] == text[k];
    assert HasText(text[a..b]);
    MoreText(names, text[..a], text[a..b]);
    assert text[..a] + text[a..b] == text[..b];
  }

  lemma CalloutNotSame(names: Names, b: Body, layer: string)
    requires EdgeBlind(names) && Wordy(names) && OpenBody(b, layer) && !IsTitle(FirstUnit(b).lines[0])
    requires FirstUnit(b).kind == Callout && !HeadOk(Tailed(b))
    ensures !SameByKey(names, Parse(Render(b), layer), b)
  {
    hide Parse, Render, Tailed, HeadUnit, Wordy, EdgeBlind, HeadOk, FirstUnit, PrintedLines;
    var e := CalloutLost(b, layer);
    var back := Parse(Render(b), layer);
    CalloutKeyDiffers(names, PrintedLines(b), |FirstUnit(b).lines|, e);
    FirstKeyFor(names, b, layer);
    ParseSound(Render(b), layer);
    LeadOf(names, back.sections);
    LeadOf(names, b.sections);
  }

  lemma HeadingNotSame(names: Names, b: Body, layer: string)
    requires EdgeBlind(names) && OpenBody(b, layer) && !IsTitle(FirstUnit(b).lines[0])
             && ClassOf(FirstUnit(b).lines[0]) == Heads
    ensures !SameByKey(names, Parse(Render(b), layer), b)
  {
    hide Parse, Render, Tailed, HeadUnit, EdgeBlind, FirstUnit, PrintedLines, ClassOf;
    HeadingLost(b, layer);
    FirstKeyFor(names, b, layer);
    NoLead(names, Parse(Render(b), layer).sections);
    LeadOf(names, b.sections);
  }

  lemma StartNotSame(names: Names, b: Body, layer: string)
    requires EdgeBlind(names) && Wordy(names) && OpenBody(b, layer) && !HeadOk(Tailed(b))
    ensures !SameByKey(names, Parse(Render(b), layer), b)
  {
    hide Parse, Render, Tailed, Wordy, EdgeBlind, PrintedLines, SameByKey, ClassOf;
    if IsTitle(FirstUnit(b).lines[0]) {
      StrayTitleLost(b, layer);
      TitleDiffers(names, Parse(Render(b), layer), b);
    } else if ClassOf(FirstUnit(b).lines[0]) == Heads {
      HeadingNotSame(names, b, layer);
    } else {
      CalloutNotSame(names, b, layer);
    }
  }

  lemma TitleDiffers(names: Names, a: Body, b: Body)
    requires a.title != b.title
    ensures !SameByKey(names, a, b)
  {
  }

  /** A swallowed item is one unit less. */
  lemma SwallowedNotSame(names: Names, b: Body, layer: string)
    requires EdgeBlind(names) && Storable(b, layer) && TitleOk(b.title)
    requires Swallowed(LastUnits(b)) && (Opens(Tailed(b)) ==> HeadOk(Tailed(b)))
    ensures !SameByKey(names, Parse(Render(b), layer), b)
  {
    hide Parse, Render, Pared, UnderHeads, Sound, EdgeBlind, Opens, HeadOk, TailUnit;
    var n := |b.sections| - 1;
    var last, key := b.sections[n], SectionKeyOf(names, b.sections[n]);
    var t := Tailed(b);
    ReadBack(b, layer);
    FirstTailedOk(b, layer);
    ParedFor(names, t, layer);
    GatherFor(names, Pared(t).sections, t.sections, key);
    GatherOne(names, b.sections[..n], last, key);
    GatherOne(names, b.sections[..n], t.sections[n], key);
    assert b.sections == b.sections[..n] + [last];
    assert |t.sections[n].units| == |last.units| - 1;
  }

  /** A kept body is read back by key exactly when it reads on. */
  lemma ReadsBackByKey(names: Names, b: Body, layer: string)
    requires EdgeBlind(names) && Wordy(names) && Storable(b, layer)
    ensures SameByKey(names, Parse(Render(b), layer), b) <==> ReadsOn(b)
  {
    hide Parse, Render, Tailed, UnderHeads, Sound, Wordy, EdgeBlind, Opens, HeadOk, Swallowed;
    if b.title == "#" {
      BareMarkLost(b, layer);
    } else if Opens(Tailed(b)) && !HeadOk(Tailed(b)) {
      OpensUntitled(b);
      StartNotSame(names, b, layer);
    } else if Swallowed(LastUnits(b)) {
      SwallowedNotSame(names, b, layer);
    } else {
      ReadBackFor(names, b, layer);
      forall key ensures SameKeys(names, Gather(names, Parse(Render(b), layer).sections, key),
                                  Gather(names, b.sections, key)) {
        GatherFor(names, Parse(Render(b), layer).sections, b.sections, key);
      }
    }
  }

  lemma OpensUntitled(b: Body)
    requires LastUnits(b) != [] && Opens(Tailed(b))
    ensures b.title == ""
  {
  }

  // ---- the split --------------------------------------------------------------------------------------

  lemma RelabeledTail(units: seq<Unit>, layer: string)
    requires units != []
    ensures Swallowed(Relabel(units, layer)) == Swallowed(units)
    ensures TailUnits(Relabel(units, layer)) == Relabel(TailUnits(units), layer)
  {
    hide StripTail, IsItem;
    var n := |units| - 1;
    var r := Relabel(units, layer);
    assert TailUnit(r[n]) == TailUnit(units[n]).(layer := layer);
    assert r[..n] == Relabel(units[..n], layer);
    if n > 0 { assert r[..n - 1] == Relabel(units[..n - 1], layer); }
  }

  function Marked(b: Body, layer: string): Body { b.(sections := RelabelAll(b.sections, layer)) }

  lemma RelabeledTailed(b: Body, layer: string)
    requires LastUnits(b) != []
    ensures LastUnits(Marked(b, layer)) != [] && Tailed(Marked(b, layer)) == Marked(Tailed(b), layer)
    ensures LastUnits(Marked(b, layer)) == Relabel(LastUnits(b), layer)
  {
    hide TailUnits, Relabel;
    var n := |b.sections| - 1;
    RelabeledTail(b.sections[n].units, layer);
    NoUnitsLost(b.sections[n].units);
    assert Marked(b, layer).sections[..n] == RelabelAll(b.sections[..n], layer);
  }

  lemma RelabeledHead(b: Body, layer: string)
    ensures Opens(Marked(b, layer)) == Opens(b)
    ensures Opens(b) ==> HeadOk(Marked(b, layer)) == HeadOk(b)
  {
    hide ClassOf, IsCallout;
  }

  lemma RelabeledReads(b: Body, layer: string)
    requires LastUnits(b) != []
    ensures LastUnits(Marked(b, layer)) != [] && ReadsOn(Marked(b, layer)) == ReadsOn(b)
  {
    hide Tailed, Opens, HeadOk, Swallowed;
    RelabeledTailed(b, layer);
    RelabeledTail(LastUnits(b), layer);
    RelabeledHead(Tailed(b), layer);
  }

  lemma RestKept(names: Names, text: seq<Line>, public: seq<Line>, layer: string)
    requires SplitBody(names, text, public).sections != []
    ensures LastUnits(SplitBody(names, text, public)) != []
    ensures Storable(Marked(SplitBody(names, text, public), layer), layer)
  {
    hide Rest, Sound, SectionOk;
    var rest := SplitBody(names, text, public);
    var parsed := Parse(text, PUBLIC);
    var known := Known(names, Parse(public, PUBLIC).sections);
    ParseSound(text, PUBLIC);
    ParsedTitle(text, PUBLIC);
    RestSound(names, parsed.sections, known, PUBLIC);
    RestHeaded(names, parsed.sections, known);
    RelabeledSound(rest.sections, PUBLIC, layer);
  }

  lemma SameByRelabel(names: Names, back: Body, b: Body, layer: string)
    ensures SameByKey(names, back, Marked(b, layer)) <==> SameByKey(names, back, b)
  {
    var r := Marked(b, layer);
    forall key ensures SameKeys(names, Gather(names, back.sections, key), Gather(names, r.sections, key))
                  <==> SameKeys(names, Gather(names, back.sections, key), Gather(names, b.sections, key)) {
      RelabeledGather(names, b.sections, layer, key);
    }
    if SameByKey(names, back, r) {
      forall key ensures SameKeys(names, Gather(names, back.sections, key), Gather(names, b.sections, key)) {
        assert SameKeys(names, Gather(names, back.sections, key), Gather(names, r.sections, key));
      }
    }
  }

  /** For every body and public page: what the split stores is read back with the same title and, under each
      heading and in order, units of the same keys, exactly when it reads on. */
  lemma StoredByKey(names: Names, text: seq<Line>, public: seq<Line>, layer: string)
    requires EdgeBlind(names) && Wordy(names) && SplitBody(names, text, public).sections != []
    ensures SameByKey(names, Parse(Split(names, text, public), layer), SplitBody(names, text, public)) <==>
              ReadsOn(SplitBody(names, text, public))
  {
    hide Parse, Render, EdgeBlind, Wordy, SplitBody, Storable, ReadsOn, SameByKey, LastUnits;
    var rest := SplitBody(names, text, public);
    RestKept(names, text, public, layer);
    RelabeledReads(rest, layer);
    RelabeledText(rest, layer);
    SameByRelabel(names, Parse(Render(rest), layer), rest, layer);
    ReadsBackByKey(names, Marked(rest, layer), layer);
  }

  /** Where it reads on, what the split stores has the body's title, and under each heading and in order the keys of
      exactly the body's units that the public page does not know. */
  lemma StoredIsBody(names: Names, text: seq<Line>, public: seq<Line>, layer: string, key: SectionKey)
    requires EdgeBlind(names) && Wordy(names) && SplitBody(names, text, public).sections != []
    requires ReadsOn(SplitBody(names, text, public))
    ensures var back, body := Parse(Split(names, text, public), layer), Parse(text, PUBLIC);
            && back.title == body.title
            && SameKeys(names, Gather(names, back.sections, key),
                        Without(names, Gather(names, body.sections, key), Known(names, Parse(public, PUBLIC).sections)))
  {
    hide Parse, Render, EdgeBlind, Wordy, ReadsOn, Known, Rest, Without, SameKeys, LastUnits;
    StoredByKey(names, text, public, layer);
    GatherRest(names, Parse(text, PUBLIC).sections, Known(names, Parse(public, PUBLIC).sections), key);
  }
}
