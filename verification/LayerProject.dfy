/** The writing view: what a merged page is read back as, and when splitting it returns the layer's units. */
module LayerProject {
  import opened Options
  import opened Text
  import opened PageBodies
  import opened BodyRender
  import opened BodyParse
  import opened BodyRoundTrip
  import opened BodyNormal
  import opened BodyEdges
  import opened BodyReadBack
  import opened BodyStable
  import opened LayerPages
  import opened LayerFacts
  import opened LayerSections
  import opened LayerSplit
  import opened LayerStored
  import opened LayerUnseen

  /** A page that survives printing: closed fences and callouts, a title that is more than the mark, and no
      white space at the edges of its printed text. */
  predicate WellFormed(b: Body, layer: string) {
    Whole(b.sections, layer) && b.title != "#" && Stripped(BodyText(b))
  }

  // ---- the sections printed ---------------------------------------------------------------------------

  lemma {:induction false} FilledNone(sections: seq<Section>)
    requires forall k :: 0 <= k < |sections| ==> sections[k].units == []
    ensures Filled(sections) == []
  {
    if sections != [] { FilledNone(sections[..|sections| - 1]); }
  }

  lemma {:induction false} FilledIs(names: Names, sections: seq<Section>, key: SectionKey)
    ensures NoneEmpty(Filled(sections)) && forall s :: s in Filled(sections) ==> s in sections
    ensures Gather(names, Filled(sections), key) == Gather(names, sections, key)
  {
    if sections != [] {
      var n := |sections| - 1;
      FilledIs(names, sections[..n], key);
      GatherOne(names, Filled(sections[..n]), sections[n], key);
      if sections[n].units == [] { assert Filled(sections) == Filled(sections[..n]); }
    }
  }

  /** Where units without a heading come first, only the first section printed can lack one. */
  lemma {:induction false} FilledHeads(sections: seq<Section>)
    requires LeadsFirst(sections)
    ensures UnderHeads(Filled(sections))
  {
    if sections != [] {
      var n := |sections| - 1;
      FilledHeads(sections[..n]);
      if sections[n].units != [] && sections[n].heading.None? { FilledNone(sections[..n]); }
    }
  }

  /** Where a section with a heading is printed first, the first section printed has one. */
  lemma {:induction false} FilledFirst(sections: seq<Section>, i: nat)
    requires i < |sections| && sections[i].units != [] && forall j :: 0 <= j <= i ==> sections[j].heading.Some?
    ensures Filled(sections) != [] && Filled(sections)[0].heading.Some?
  {
    var n := |sections| - 1;
    if i < n {
      FilledFirst(sections[..n], i);
    } else if Filled(sections[..n]) != [] {
      var j := FirstFilled(sections[..n]);
    }
  }

  lemma {:induction false} FirstFilled(sections: seq<Section>) returns (j: nat)
    requires Filled(sections) != []
    ensures j < |sections| && Filled(sections)[0] == sections[j] && sections[j].units != []
  {
    var n := |sections| - 1;
    if Filled(sections[..n]) == [] { j := n; } else { j := FirstFilled(sections[..n]); }
  }

  lemma {:induction false} FilledDistinct(names: Names, sections: seq<Section>)
    requires DistinctHeads(names, sections)
    ensures DistinctHeads(names, Filled(sections))
  {
    if sections != [] {
      var n := |sections| - 1;
      FilledDistinct(names, sections[..n]);
      FilledIs(names, sections[..n], None);
      var front := Filled(sections[..n]);
      forall i | 0 <= i < |front| ensures SectionKeyOf(names, front[i]) != SectionKeyOf(names, sections[n]) {
        assert front[i] in sections[..n];
      }
    }
  }

  /** The merged page as it is printed: without its sections without units. */
  function Shown(names: Names, p: Body, x: Body): Body {
    var m := Combine(names, [p, x], false);
    Body(m.title, Filled(RelabelAll(m.sections, PUBLIC)))
  }

  lemma SameChunks(b: Body, sections: seq<Section>)
    requires Chunks(sections) == Chunks(b.sections)
    ensures BodyText(Body(b.title, sections)) == BodyText(b) && Render(Body(b.title, sections)) == Render(b)
  {
    hide Join, StripHead, StripTail;
  }

  lemma ShownIs(names: Names, p: Body, x: Body, layer: string)
    requires Whole(p.sections, PUBLIC) && Whole(x.sections, layer)
    ensures var v, m := Shown(names, p, x), Combine(names, [p, x], false);
            && BodyText(v) == BodyText(m) && Render(v) == Render(m)
            && NoneEmpty(v.sections) && Whole(v.sections, PUBLIC) && DistinctHeads(names, v.sections)
            && forall key :: Gather(names, v.sections, key) == Gather(names, RelabelAll(m.sections, PUBLIC), key)
  {
    hide Combine, BodyText, Render, Filled, RelabelAll, Whole, Gather, NoneEmpty, DistinctHeads;
    var m := Combine(names, [p, x], false);
    var r := RelabelAll(m.sections, PUBLIC);
    RelabeledText(m, PUBLIC);
    FilledChunks(r);
    SameChunks(Body(m.title, r), Filled(r));
    MergedWhole(names, p, x, layer);
    FilledWhole(r, PUBLIC);
    MergedDistinct(names, p, x);
    FilledDistinct(names, r);
    FilledIs(names, r, None);
    forall key ensures Gather(names, Filled(r), key) == Gather(names, r, key) { FilledIs(names, r, key); }
  }

  lemma MergedDistinct(names: Names, p: Body, x: Body)
    ensures DistinctHeads(names, RelabelAll(Combine(names, [p, x], false).sections, PUBLIC))
  {
    DistinctSections(names, AllSections([p, x]));
  }

  // ---- the start of the text --------------------------------------------------------------------------

  /** A text starts with text, and with no title line unless the body has a title. */
  predicate StartsPlain(b: Body) {
    var text := BodyText(b);
    text != [] && !Blank(text[0]) && text[0] != [] && !IsSpace(text[0][0]) && (b.title == "" ==> !IsTitle(text[0]))
  }

  lemma StrippedStart(lines: seq<Line>)
    requires Stripped(lines) && lines != []
    ensures !Blank(lines[0]) && lines[0] != [] && !IsSpace(lines[0][0])
  {
    StrippedEnds(lines);
    HeadShrinks(lines);
    TailShrinks(StripHead(lines));
    BlankEdges(lines[0]);
    assert DropSpaces(lines[0]) == lines[0] by {
      if |lines| > 1 {
        assert StripHead(lines)[0] == lines[0];
      } else {
        OneStripped(lines[0]);
      }
    }
  }

  lemma OneStripped(line: Line)
    requires !Blank(line) && Stripped([line])
    ensures DropSpaces(line) == line
  {
    hide Blank, TrimEnd, DropSpaces;
    OneLineEnds(line);
    BlankEdges(line);
    assert [line][1..] == [] && StripHead([line]) == [DropSpaces(line)];
    StripTailIs([DropSpaces(line)], 0);
    assert StripTail([DropSpaces(line)])[0] == TrimEnd(DropSpaces(line));
  }

  /** The first line of a page's lead. */
  lemma LeadLine(names: Names, b: Body, layer: string)
    requires Sound(b.sections, layer) && Headed(b.sections) && Stripped(BodyText(b)) && b.title == ""
             && PlainLead(names, b)
    requires Gather(names, b.sections, None) != []
    ensures var line := Gather(names, b.sections, None)[0].lines;
            line != [] && line[0] != [] && !Blank(line[0]) && !IsSpace(line[0][0]) && !IsTitle(line[0])
  {
    hide BodyText, Stripped;
    GatherLead(names, b.sections);
    FirstLine(b, layer);
    StrippedStart(BodyText(b));
  }

  lemma MergedFirst(names: Names, p: Body, x: Body)
    requires Gather(names, p.sections, None) + Gather(names, x.sections, None) != []
    ensures var r := Gather(names, RelabelAll(Combine(names, [p, x], false).sections, PUBLIC), None);
            r != [] && r[0].lines == (Gather(names, p.sections, None) + Gather(names, x.sections, None))[0].lines
  {
    var all := Gather(names, p.sections, None) + Gather(names, x.sections, None);
    TwoSections(p, x);
    GatherCombined(names, [p, x], None, false);
    GatherAppends(names, p.sections, x.sections, None);
    DedupeHead(names, all, false);
    RelabeledGather(names, Combine(names, [p, x], false).sections, PUBLIC, None);
  }

  lemma MergedTitle(names: Names, p: Body, x: Body)
    ensures Shown(names, p, x).title == if p.title != "" then p.title else x.title
  {
    hide CombineSections, Filled;
    TwoSections(p, x);
  }

  lemma OneHead(names: Names, sections: seq<Section>)
    requires DistinctHeads(names, sections) && sections != [] && sections[0].heading.None?
    ensures Gather(names, sections, None) == sections[0].units
  {
    OneLead(names, sections, 0);
  }

  /** A page as it is parsed. */
  predicate Parsed(names: Names, b: Body, layer: string) {
    Sound(b.sections, layer) && Headed(b.sections) && PlainLead(names, b) && TitleRead(b.title)
  }

  lemma ViewStart(names: Names, p: Body, x: Body, layer: string)
    requires WellFormed(p, PUBLIC) && WellFormed(x, layer) && Parsed(names, p, PUBLIC) && Parsed(names, x, layer)
    requires Shown(names, p, x).sections != []
    ensures StartsPlain(Shown(names, p, x)) && TitleOk(Shown(names, p, x).title)
  {
    hide Combine, Filled, RelabelAll, BodyText, Stripped, Shown, Sound, Whole, PlainLead, Gather, IsTitle;
    var v := Shown(names, p, x);
    ShownIs(names, p, x, layer);
    MergedTitle(names, p, x);
    WholeIsSound(v.sections, PUBLIC);
    assert v.sections[0].units != [];
    PlainStart(v, PUBLIC);
    if Opens(v) {
      FirstLine(v, PUBLIC);
      OneHead(names, v.sections);
      LeadLines(names, p, x, layer);
    }
  }

  lemma LeadLines(names: Names, p: Body, x: Body, layer: string)
    requires WellFormed(p, PUBLIC) && WellFormed(x, layer) && Parsed(names, p, PUBLIC) && Parsed(names, x, layer)
    requires p.title == "" && x.title == ""
    requires Gather(names, RelabelAll(Combine(names, [p, x], false).sections, PUBLIC), None) != []
    ensures var line := Gather(names, RelabelAll(Combine(names, [p, x], false).sections, PUBLIC), None)[0].lines;
            line != [] && line[0] != [] && !Blank(line[0]) && !IsSpace(line[0][0]) && !IsTitle(line[0])
  {
    hide Combine, RelabelAll, BodyText, Stripped, Sound, Whole, PlainLead, Gather, IsTitle;
    var a, b := Gather(names, p.sections, None), Gather(names, x.sections, None);
    NoLeadMerged(names, p, x);
    MergedFirst(names, p, x);
    if a != [] { LeadLine(names, p, PUBLIC); } else { LeadLine(names, x, layer); }
  }

  lemma NoLeadMerged(names: Names, p: Body, x: Body)
    ensures Gather(names, p.sections, None) + Gather(names, x.sections, None) == [] ==>
              Gather(names, RelabelAll(Combine(names, [p, x], false).sections, PUBLIC), None) == []
  {
    TwoSections(p, x);
    GatherCombined(names, [p, x], None, false);
    GatherAppends(names, p.sections, x.sections, None);
    RelabeledGather(names, Combine(names, [p, x], false).sections, PUBLIC, None);
    assert Dedupe(names, [], false) == [];
  }

  // ---- what is read back ------------------------------------------------------------------------------

  lemma SameFirst(text: seq<Line>)
    requires text != [] && !Blank(text[0]) && !IsTitle(text[0])
    ensures StripTail(text) != [] && !IsTitle(StripTail(text)[0])
  {
    var m := StripTailKeeps(text);
    if m == 0 {
      var n := TrimEndKeeps(text[0]);
    }
  }

  lemma TailedPrintable(b: Body, layer: string)
    requires LastUnits(b) != [] && UnitsOk(LastUnits(b), layer) && TitleOk(b.title) && StartsPlain(b)
    ensures Printable(Tailed(b)) && Render(b) == Render(Tailed(b))
  {
    hide BodyText, Tailed, Stripped, StripTail, StripHead, UnitsOk;
    var text := BodyText(b);
    TailedText(b, layer);
    TailedTitle(b);
    BothEnds(text);
    NoSpaceAhead(text);
    if b.title == "" { SameFirst(text); }
    RenderStripped(b, Tailed(b));
  }

  /** A body whose text starts plainly is read back settled, its end stripped. */
  lemma PlainReads(b: Body, layer: string)
    requires b.sections != [] && NoneEmpty(b.sections) && Sound(b.sections, layer) && TitleOk(b.title) && StartsPlain(b)
    ensures LastUnits(b) != [] && Parse(Render(b), layer) == Body(b.title, Settle(Tailed(b).sections))
  {
    hide Tailed, Parse, Settle, StartsPlain, Printable, Render, Sound, TitleOk;
    SoundHeading(b.sections, |b.sections| - 1, layer);
    TailedPrintable(b, layer);
    TailedSound(b, layer);
    TailedTitle(b);
    PrintsBack(Tailed(b), layer);
  }

  lemma RenderStripped(b: Body, t: Body)
    requires BodyText(b) != [] && BodyText(t) == StripTail(StripHead(BodyText(b))) && BodyText(t) != []
             && Stripped(BodyText(t))
    ensures Render(b) == Render(t)
  {
  }

  /** What a merged page is read back as: what is printed of it, settled, its end stripped. */
  function ReadView(names: Names, p: Body, x: Body): seq<Section> {
    var v := Shown(names, p, x);
    if LastUnits(v) == [] then [] else Settle(Tailed(v).sections)
  }

  lemma ParsedIs(names: Names, text: seq<Line>, layer: string)
    ensures Parsed(names, Parse(text, layer), layer)
  {
    hide Parse, Sound;
    ParseSound(text, layer);
    ParsedTitle(text, layer);
    ParsedLead(names, text, layer);
  }

  /** A merged page whose parts each survive printing is read back with its title and sections, settled, but for
      the white space at its end. */
  lemma MergedReadsBack(names: Names, public: seq<Line>, extra: seq<Line>, layer: string)
    requires WellFormed(Parse(public, PUBLIC), PUBLIC) && WellFormed(Parse(extra, layer), layer)
    ensures var p, x := Parse(public, PUBLIC), Parse(extra, layer);
            Parse(Render(Merged(names, public, extra, layer)), PUBLIC) ==
              Body(Shown(names, p, x).title, ReadView(names, p, x))
  {
    hide Parse, Render, Shown, WellFormed, Combine;
    var p, x := Parse(public, PUBLIC), Parse(extra, layer);
    ParsedIs(names, public, PUBLIC);
    ParsedIs(names, extra, layer);
    ViewReads(names, p, x, layer);
  }

  lemma ViewReads(names: Names, p: Body, x: Body, layer: string)
    requires WellFormed(p, PUBLIC) && WellFormed(x, layer) && Parsed(names, p, PUBLIC) && Parsed(names, x, layer)
    ensures Parse(Render(Combine(names, [p, x], false)), PUBLIC) ==
            Body(Shown(names, p, x).title, ReadView(names, p, x))
  {
    hide Parse, Render, Shown, Stripped, Combine, Settle, Tailed, StartsPlain, Sound, PlainLead;
    var v := Shown(names, p, x);
    ShownIs(names, p, x, layer);
    if v.sections == [] {
      MergedTitle(names, p, x);
      TitleReads(v, PUBLIC);
    } else {
      ViewStart(names, p, x, layer);
      WholeIsSound(v.sections, PUBLIC);
      PlainReads(v, PUBLIC);
    }
  }

  // ---- the end of the text ----------------------------------------------------------------------------

  /** Units of two kinds, the first known, the others not, as they are read back at the end of a text. */
  predicate KnownThenNew(names: Names, d: seq<Unit>, e: seq<Unit>, known: set<string>) {
    && d + e != []
    && (forall u :: u in d ==> KeyOf(names, u) in known) && (forall u :: u in e ==> KeyOf(names, u) !in known)
  }

  lemma WithoutKnown(names: Names, d: seq<Unit>, e: seq<Unit>, known: set<string>)
    requires (forall u :: u in d ==> KeyOf(names, u) in known) && forall u :: u in e ==> KeyOf(names, u) !in known
    ensures Without(names, d + e, known) == e
  {
    hide Without, KeyOf;
    forall k | 0 <= k < |d| ensures KeyOf(names, d[k]) in known { assert d[k] in d; }
    forall k | 0 <= k < |e| ensures KeyOf(names, e[k]) !in known { assert e[k] in e; }
    WithoutAppends(names, d, e, known);
    WithoutAll(names, d, known);
    WithoutNone(names, e, known);
    assert [] + e == e;
  }

  lemma WithoutLast(names: Names, units: seq<Unit>, u: Unit, known: set<string>)
    ensures Without(names, units + [u], known) == Without(names, units, known) + if KeyOf(names, u) in known then []
            else [u]
  {
    assert (units + [u])[..|units|] == units;
  }

  /** What is left of the last units, if the last one is new and swallows nothing. */
  lemma NewEnd(names: Names, d: seq<Unit>, e: seq<Unit>, known: set<string>)
    requires KnownThenNew(names, d, e, known) && e != [] && !Swallowed(d + e)
    ensures var t := TailUnit(e[|e| - 1]);
            Without(names, TailUnits(d + e), known) == e[..|e| - 1] + if KeyOf(names, t) in known then [] else [t]
  {
    hide TailUnit, Swallowed;
    var n := |e| - 1;
    assert TailUnits(d + e) == d + e[..n] + [TailUnit(e[n])] by { assert (d + e)[..|d| + n] == d + e[..n]; }
    WithoutKnown(names, d, e[..n], known);
    WithoutLast(names, d + e[..n], TailUnit(e[n]), known);
  }

  /** If it is known, and the others before it are. */
  lemma KnownEnd(names: Names, d: seq<Unit>, known: set<string>)
    requires d != [] && forall u :: u in d ==> KeyOf(names, u) in known
    ensures var r := TailUnits(d);
            Without(names, r, known) == if KeyOf(names, r[|r| - 1]) in known then [] else [r[|r| - 1]]
  {
    hide TailUnit, Swallowed;
    var r := TailUnits(d);
    var n := |r| - 1;
    assert r == r[..n] + [r[n]];
    forall u | u in r[..n] ensures u in d { }
    WithoutKnown(names, r[..n], [], known);
    assert r[..n] + [] == r[..n];
    WithoutLast(names, r[..n], r[n], known);
  }

  /** If the last one is new and is swallowed, the units left are fewer, or one in place of the only new one. */
  lemma SwallowedEnd(names: Names, d: seq<Unit>, e: seq<Unit>, known: set<string>)
    requires KnownThenNew(names, d, e, known) && e != [] && Swallowed(d + e)
    ensures var left := Without(names, TailUnits(d + e), known);
            |left| < |e| || (|e| == 1 && left == [Eater(d + e)])
  {
    hide TailUnit, Eater;
    var all, n := d + e, |d + e| - 1;
    var r := TailUnits(all);
    assert r == all[..n - 1] + [Eater(all)] by { EaterIs(all); }
    WithoutLast(names, all[..n - 1], Eater(all), known);
    if |e| == 1 {
      assert all[..n - 1] == d[..|d| - 1] + [];
      WithoutKnown(names, d[..|d| - 1], [], known);
    } else {
      assert all[..n - 1] == d + e[..|e| - 2];
      WithoutKnown(names, d, e[..|e| - 2], known);
    }
  }

  lemma EaterIs(units: seq<Unit>)
    requires Swallowed(units)
    ensures TailUnits(units) == units[..|units| - 2] + [Eater(units)]
  {
    hide TailUnit;
  }

  /** An item swallowed is not the item that swallows it. */
  lemma EaterDiffers(units: seq<Unit>, layer: string)
    requires Swallowed(units) && UnitsOk(units, layer)
    ensures Eater(units) != units[|units| - 1]
  {
    hide ClassOf, IsItem, Runs;
    var n := |units| - 1;
    var z := units[n];
    assert UnitOk(z, layer) && UnitOk(units[n - 1], layer);
    TailOk(z, layer);
    UnitHasText(z, layer);
    var m := StripTailKeeps(z.lines);
    assert m == 0;
    var e := Eater(units);
    assert e.lines == units[n - 1].lines + TailUnit(z).lines;
    assert !Blank(e.lines[|e.lines| - 1]) && |e.lines| > 1;
  }

  /** The text ends with nothing lost: with a unit of the layer's that has no white space at its end, or with one
      of the public page's that is still known without it. */
  ghost predicate EndStays(names: Names, p: Body, x: Body) {
    var last := LastUnits(Shown(names, p, x));
    last != [] ==>
      if LayerLast(names, p, x) then TailUnit(last[|last| - 1]) == last[|last| - 1]
      else KeyOf(names, TailUnits(last)[|TailUnits(last)| - 1]) in Known(names, p.sections)
  }

  /** The section printed last has units of the layer's. */
  ghost predicate LayerLast(names: Names, p: Body, x: Body) {
    var sections := Shown(names, p, x).sections;
    sections != [] && Gather(names, x.sections, SectionKeyOf(names, sections[|sections| - 1])) != []
  }

  /** The units of both pages at the end of the text. */
  lemma ExactEnd(names: Names, d: seq<Unit>, e: seq<Unit>, known: set<string>, layer: string)
    requires KnownThenNew(names, d, e, known) && UnitsOk(d + e, layer)
    ensures var all := d + e;
            Without(names, TailUnits(all), known) == e <==>
            if e != [] then TailUnit(all[|all| - 1]) == all[|all| - 1]
            else KeyOf(names, TailUnits(all)[|TailUnits(all)| - 1]) in known
  {
    hide TailUnit, TailUnits, Swallowed, UnitsOk, Eater;
    var all := d + e;
    if e == [] {
      assert all == d;
      KnownEnd(names, d, known);
    } else if Swallowed(all) {
      SwallowedEnd(names, d, e, known);
      EaterDiffers(all, layer);
      SwallowedChanges(all);
      assert all[|all| - 1] == e[|e| - 1];
    } else {
      var n := |e| - 1;
      NewEnd(names, d, e, known);
      assert all[|all| - 1] == e[n] && e == e[..n] + [e[n]] && e[n] in e;
    }
  }

  lemma SwallowedChanges(units: seq<Unit>)
    requires Swallowed(units)
    ensures TailUnit(units[|units| - 1]) != units[|units| - 1]
  {
  }

  // ---- the split of the view --------------------------------------------------------------------------

  lemma {:induction false} NoneBefore(names: Names, sections: seq<Section>, key: SectionKey)
    requires forall k :: 0 <= k < |sections| ==> SectionKeyOf(names, sections[k]) != key
    ensures Gather(names, sections, key) == []
  {
    if sections != [] { NoneBefore(names, sections[..|sections| - 1], key); }
  }

  lemma LastKey(names: Names, v: Body)
    requires LastUnits(v) != [] && DistinctHeads(names, v.sections)
    ensures var key := SectionKeyOf(names, v.sections[|v.sections| - 1]);
            Gather(names, v.sections, key) == LastUnits(v)
              && Gather(names, Tailed(v).sections, key) == TailUnits(LastUnits(v))
  {
    hide TailUnits, Tailed;
    var n := |v.sections| - 1;
    LastGathered(names, v);
    NoneBefore(names, v.sections[..n], SectionKeyOf(names, v.sections[n]));
    assert [] + LastUnits(v) == LastUnits(v) && [] + TailUnits(LastUnits(v)) == TailUnits(LastUnits(v));
  }

  lemma OtherKey(names: Names, v: Body, key: SectionKey)
    requires LastUnits(v) != [] && key != SectionKeyOf(names, v.sections[|v.sections| - 1])
    ensures Gather(names, Tailed(v).sections, key) == Gather(names, v.sections, key)
  {
    hide TailUnits;
    var n := |v.sections| - 1;
    assert v.sections == v.sections[..n] + [v.sections[n]];
    GatherOne(names, v.sections[..n], v.sections[n], key);
    GatherOne(names, v.sections[..n], Tailed(v).sections[n], key);
  }

  /** The public page's units under a key, each once, as they are merged. */
  function Old(names: Names, p: Body, key: SectionKey): seq<Unit> {
    Relabel(Dedupe(names, Gather(names, p.sections, key), key == Some(CONNECTIONS)), PUBLIC)
  }

  /** The layer's units under a key, as they are read back. */
  function New(names: Names, x: Body, key: SectionKey): seq<Unit> { Relabel(Gather(names, x.sections, key), PUBLIC) }

  lemma MergedUnits(names: Names, p: Body, x: Body, key: SectionKey)
    requires Separate(names, p, x)
    ensures Gather(names, RelabelAll(Combine(names, [p, x], false).sections, PUBLIC), key) ==
            Old(names, p, key) + New(names, x, key)
    ensures (forall u :: u in Old(names, p, key) ==> KeyOf(names, u) in Known(names, p.sections))
    ensures (forall u :: u in New(names, x, key) ==> KeyOf(names, u) !in Known(names, p.sections))
  {
    var conn := key == Some(CONNECTIONS);
    var a, b := Gather(names, p.sections, key), Gather(names, x.sections, key);
    TwoSections(p, x);
    GatherCombined(names, [p, x], key, false);
    GatherAppends(names, p.sections, x.sections, key);
    SeparateIsNew(names, p, x, key);
    DedupeNew(names, a, b, conn);
    RelabeledGather(names, Combine(names, [p, x], false).sections, PUBLIC, key);
    RelabelAppends(Dedupe(names, a, conn), b, PUBLIC);
    OldKnown(names, p, key);
    NewUnknown(names, p, x, key);
  }

  lemma OldKnown(names: Names, p: Body, key: SectionKey)
    ensures forall u :: u in Old(names, p, key) ==> KeyOf(names, u) in Known(names, p.sections)
  {
    var a := Gather(names, p.sections, key);
    var d := Dedupe(names, a, key == Some(CONNECTIONS));
    forall u | u in Old(names, p, key) ensures KeyOf(names, u) in Known(names, p.sections) {
      var k :| 0 <= k < |d| && Relabel(d, PUBLIC)[k] == u;
      DedupeIn(names, a, key == Some(CONNECTIONS), k);
      GatherKnown(names, p.sections, key, d[k]);
    }
  }

  lemma NewUnknown(names: Names, p: Body, x: Body, key: SectionKey)
    requires Separate(names, p, x)
    ensures forall u :: u in New(names, x, key) ==> KeyOf(names, u) !in Known(names, p.sections)
  {
    var b := Gather(names, x.sections, key);
    forall u | u in New(names, x, key) ensures KeyOf(names, u) !in Known(names, p.sections) {
      var k :| 0 <= k < |b| && Relabel(b, PUBLIC)[k] == u;
      assert b[k] in b && KeyOf(names, b[k]) == KeyOf(names, u);
    }
  }

  /** What the split leaves of a writing view. */
  function Left(names: Names, p: Body, x: Body): seq<Section> {
    Rest(names, ReadView(names, p, x), Known(names, p.sections))
  }

  /** Two parsed pages that each survive printing and share nothing. */
  ghost predicate Pair(names: Names, p: Body, x: Body, layer: string) {
    && WellFormed(p, PUBLIC) && WellFormed(x, layer) && Parsed(names, p, PUBLIC) && Parsed(names, x, layer)
    && Separate(names, p, x)
  }

  lemma LeftUnder(names: Names, p: Body, x: Body, layer: string, key: SectionKey)
    requires Pair(names, p, x, layer) && LeadStays(names, p, x) && Shown(names, p, x).sections != []
    ensures var v := Shown(names, p, x);
            && LastUnits(v) != []
            && Gather(names, Left(names, p, x), key) ==
            Without(names, Gather(names, Tailed(v).sections, key), Known(names, p.sections))
  {
    hide Combine, Filled, RelabelAll, Tailed, Settle, Rest, Known, Separate, Sound, PlainLead, LeadStays, WellFormed,
         Without, Gather;
    var v := Shown(names, p, x);
    UnderShown(names, p, x);
    assert UnderHeads(v.sections);
    TailedHeaded(v);
    SettleFills(Tailed(v).sections);
    FilledAll(Tailed(v).sections);
    GatherRest(names, Tailed(v).sections, Known(names, p.sections), key);
  }

  lemma UnderShown(names: Names, p: Body, x: Body)
    requires Headed(p.sections) && Headed(x.sections) && LeadStays(names, p, x)
    ensures UnderHeads(Shown(names, p, x).sections)
  {
    hide Combine, Filled, RelabelAll, LeadsFirst;
    StaysFirst(names, p, x);
    FilledHeads(RelabelAll(Combine(names, [p, x], false).sections, PUBLIC));
  }

  /** Under the other keys nothing is lost. */
  lemma OthersProject(names: Names, p: Body, x: Body, layer: string, key: SectionKey)
    requires Pair(names, p, x, layer) && LeadStays(names, p, x)
    requires var sections := Shown(names, p, x).sections;
             sections == [] || key != SectionKeyOf(names, sections[|sections| - 1])
    ensures Gather(names, Left(names, p, x), key) == New(names, x, key)
  {
    hide Combine, Filled, RelabelAll, Tailed, Settle, Rest, Separate, Parsed, LeadStays, WellFormed, Gather, Without,
         Shown, Known;
    var v := Shown(names, p, x);
    PairShown(names, p, x, layer);
    MergedUnits(names, p, x, key);
    WithoutKnown(names, Old(names, p, key), New(names, x, key), Known(names, p.sections));
    if v.sections == [] {
      NothingLeft(names, p, x, key);
    } else {
      LeftUnder(names, p, x, layer, key);
      OtherKey(names, v, key);
    }
  }

  lemma NothingLeft(names: Names, p: Body, x: Body, key: SectionKey)
    requires Shown(names, p, x).sections == []
             && Gather(names, Shown(names, p, x).sections, key) == Old(names, p, key) + New(names, x, key)
    ensures Gather(names, Left(names, p, x), key) == New(names, x, key)
  {
    hide Shown;
  }

  lemma PairShown(names: Names, p: Body, x: Body, layer: string)
    requires Pair(names, p, x, layer)
    ensures var v, m := Shown(names, p, x), Combine(names, [p, x], false);
            && NoneEmpty(v.sections) && Whole(v.sections, PUBLIC) && DistinctHeads(names, v.sections)
            && forall key :: Gather(names, v.sections, key) == Gather(names, RelabelAll(m.sections, PUBLIC), key)
  {
    ShownIs(names, p, x, layer);
  }

  lemma LastIs(names: Names, p: Body, x: Body, layer: string)
    requires Pair(names, p, x, layer) && Shown(names, p, x).sections != []
    ensures var v := Shown(names, p, x);
            var key := SectionKeyOf(names, v.sections[|v.sections| - 1]);
            && LastUnits(v) != [] && LastUnits(v) == Old(names, p, key) + New(names, x, key)
            && UnitsOk(LastUnits(v), PUBLIC)
            && KnownThenNew(names, Old(names, p, key), New(names, x, key), Known(names, p.sections))
            && Gather(names, Tailed(v).sections, key) == TailUnits(LastUnits(v))
  {
    hide Combine, Filled, RelabelAll, Tailed, Separate, Parsed, WellFormed, Gather, Shown, TailUnits, Known, UnitOk;
    var v := Shown(names, p, x);
    var n := |v.sections| - 1;
    var key := SectionKeyOf(names, v.sections[n]);
    PairShown(names, p, x, layer);
    MergedUnits(names, p, x, key);
    LastKey(names, v);
    assert SectionOk(v.sections[n], PUBLIC);
  }

  lemma NewIs(names: Names, x: Body, key: SectionKey)
    ensures New(names, x, key) == [] <==> Gather(names, x.sections, key) == []
  {
  }

  /** Under the last key nothing is lost exactly when the end stays. */
  lemma LastProjects(names: Names, p: Body, x: Body, layer: string)
    requires Pair(names, p, x, layer) && LeadStays(names, p, x) && Shown(names, p, x).sections != []
    ensures var sections := Shown(names, p, x).sections;
            var key := SectionKeyOf(names, sections[|sections| - 1]);
            Gather(names, Left(names, p, x), key) == New(names, x, key) <==> EndStays(names, p, x)
  {
    hide Tailed, Settle, Rest, Separate, Parsed, LeadStays, WellFormed, Gather, Shown, TailUnits, TailUnit, Known,
         Without, UnitsOk, Old, New, Left;
    var v := Shown(names, p, x);
    var key := SectionKeyOf(names, v.sections[|v.sections| - 1]);
    LastIs(names, p, x, layer);
    LeftUnder(names, p, x, layer, key);
    NewIs(names, x, key);
    ExactEnd(names, Old(names, p, key), New(names, x, key), Known(names, p.sections), PUBLIC);
  }

  lemma SettledHeaded(names: Names, sections: seq<Section>)
    requires sections != [] && sections[0].units != [] && sections[0].heading.Some?
    ensures Gather(names, Settle(sections), None) == []
  {
    hide Settle, Gather;
    SettledAway(names, sections);
    SettleKeys(names, sections);
    NoLead(names, Settle(sections));
  }

  lemma LeadLost(names: Names, p: Body, x: Body, layer: string)
    requires Pair(names, p, x, layer) && !LeadStays(names, p, x)
    ensures Gather(names, Left(names, p, x), None) == [] && New(names, x, None) != []
  {
    hide Combine, RelabelAll, Settle, Rest, Separate, WellFormed, Gather, Sound, PlainLead, TailUnits, Known;
    var v := Shown(names, p, x);
    var i := MovesAway(names, p, x);
    FilledFirst(RelabelAll(Combine(names, [p, x], false).sections, PUBLIC), i);
    PairShown(names, p, x, layer);
    NoUnitsLost(LastUnits(v));
    SettledHeaded(names, Tailed(v).sections);
    GatherRest(names, Settle(Tailed(v).sections), Known(names, p.sections), None);
    assert Without(names, [], Known(names, p.sections)) == [];
    NewIs(names, x, None);
  }

  /** Splitting an unedited writing view against its public page returns, section by section and in order,
      exactly the layer's units, if and only if the layer's lead stays in front and the end of the text stays. */
  lemma WritingViewProjects(names: Names, public: seq<Line>, extra: seq<Line>, layer: string)
    requires WellFormed(Parse(public, PUBLIC), PUBLIC) && WellFormed(Parse(extra, layer), layer)
    requires Separate(names, Parse(public, PUBLIC), Parse(extra, layer))
    ensures var p, x := Parse(public, PUBLIC), Parse(extra, layer);
            var got := SplitBody(names, Render(Merged(names, public, extra, layer)), public);
            (forall key :: Gather(names, got.sections, key) == New(names, x, key))
              <==> LeadStays(names, p, x) && EndStays(names, p, x)
  {
    hide Gather, Rest, Combine, Render, Parse, Separate, LeadStays, WellFormed, EndStays, ReadView, New, Parsed, Shown;
    var p, x := Parse(public, PUBLIC), Parse(extra, layer);
    var got := SplitBody(names, Render(Merged(names, public, extra, layer)), public);
    ParsedIs(names, public, PUBLIC);
    ParsedIs(names, extra, layer);
    MergedReadsBack(names, public, extra, layer);
    assert got.sections == Left(names, p, x);
    ViewProjects(names, p, x, layer);
  }

  lemma ViewProjects(names: Names, p: Body, x: Body, layer: string)
    requires Pair(names, p, x, layer)
    ensures (forall key :: Gather(names, Left(names, p, x), key) == New(names, x, key))
            <==> LeadStays(names, p, x) && EndStays(names, p, x)
  {
    hide Gather, Left, LeadStays, EndStays, New, Shown, Pair;
    var sections := Shown(names, p, x).sections;
    if !LeadStays(names, p, x) {
      LeadLost(names, p, x, layer);
    } else {
      if sections == [] { EndOfNothing(names, p, x); } else { LastProjects(names, p, x, layer); }
      forall key | sections == [] || key != SectionKeyOf(names, sections[|sections| - 1])
        ensures Gather(names, Left(names, p, x), key) == New(names, x, key)
      {
        OthersProject(names, p, x, layer, key);
      }
    }
  }

  lemma EndOfNothing(names: Names, p: Body, x: Body)
    requires Shown(names, p, x).sections == []
    ensures EndStays(names, p, x)
  {
    hide Shown;
  }

  // ---- by key -------------------------------------------------------------------------------------------

  /** No item of the layer's ends the text as a mark alone after another item; or the item of the public page
      that swallows one so is still known. */
  ghost predicate EndReads(names: Names, p: Body, x: Body) {
    var last := LastUnits(Shown(names, p, x));
    last != [] && Swallowed(last) ==> !LayerLast(names, p, x) && KeyOf(names, Eater(last)) in Known(names, p.sections)
  }

  lemma SameKeysAppend(names: Names, a: seq<Unit>, u: Unit, v: Unit)
    requires KeyOf(names, u) == KeyOf(names, v)
    ensures SameKeys(names, a + [u], a + [v])
  {
  }

  lemma EndByKey(names: Names, d: seq<Unit>, e: seq<Unit>, known: set<string>, layer: string)
    requires EdgeBlind(names) && Wordier(names) && KnownThenNew(names, d, e, known) && UnitsOk(d + e, layer)
    ensures SameKeys(names, Without(names, TailUnits(d + e), known), e) <==>
              (Swallowed(d + e) ==> e == [] && KeyOf(names, Eater(d + e)) in known)
  {
    hide TailUnit, TailUnits, Swallowed, UnitsOk, Eater, EdgeBlind, Wordier;
    var all := d + e;
    if Swallowed(all) {
      EaterIs(all);
      if e == [] {
        assert all == d;
        KnownEnd(names, d, known);
        assert TailUnits(all)[|TailUnits(all)| - 1] == Eater(all);
      } else {
        SwallowedEnd(names, d, e, known);
        EaterKey(names, all, layer);
        assert all[|all| - 1] == e[|e| - 1];
      }
    } else {
      UnswallowedByKey(names, d, e, known);
    }
  }

  lemma UnswallowedByKey(names: Names, d: seq<Unit>, e: seq<Unit>, known: set<string>)
    requires EdgeBlind(names) && KnownThenNew(names, d, e, known) && !Swallowed(d + e)
    ensures SameKeys(names, Without(names, TailUnits(d + e), known), e)
  {
    hide TailUnit, Swallowed, EdgeBlind;
    if e == [] {
      assert d + e == d;
      KnownEnd(names, d, known);
      var z := d[|d| - 1];
      TailFor(names, z, false);
      assert z in d;
    } else {
      var n := |e| - 1;
      NewEnd(names, d, e, known);
      TailFor(names, e[n], false);
      assert e == e[..n] + [e[n]] && e[n] in e;
      SameKeysAppend(names, e[..n], TailUnit(e[n]), e[n]);
    }
  }

  lemma LastByKey(names: Names, p: Body, x: Body, layer: string)
    requires EdgeBlind(names) && Wordier(names)
    requires Pair(names, p, x, layer) && LeadStays(names, p, x) && Shown(names, p, x).sections != []
    ensures var sections := Shown(names, p, x).sections;
            var key := SectionKeyOf(names, sections[|sections| - 1]);
            SameKeys(names, Gather(names, Left(names, p, x), key), New(names, x, key)) <==> EndReads(names, p, x)
  {
    hide Tailed, Settle, Rest, Separate, Parsed, LeadStays, WellFormed, Gather, Shown, TailUnits, TailUnit, Known,
         Without, UnitsOk, Old, New, Left, EdgeBlind, Wordier, SameKeys;
    var v := Shown(names, p, x);
    var key := SectionKeyOf(names, v.sections[|v.sections| - 1]);
    LastIs(names, p, x, layer);
    LeftUnder(names, p, x, layer, key);
    NewIs(names, x, key);
    EndByKey(names, Old(names, p, key), New(names, x, key), Known(names, p.sections), PUBLIC);
  }

  lemma ViewProjectsKeys(names: Names, p: Body, x: Body, layer: string)
    requires EdgeBlind(names) && Wordier(names) && Pair(names, p, x, layer)
    ensures (forall key :: SameKeys(names, Gather(names, Left(names, p, x), key), New(names, x, key))) <==>
              LeadStays(names, p, x) && EndReads(names, p, x)
  {
    hide Gather, Left, LeadStays, EndReads, New, Shown, Pair, EdgeBlind, Wordier;
    var sections := Shown(names, p, x).sections;
    if !LeadStays(names, p, x) {
      LeadLost(names, p, x, layer);
      assert !SameKeys(names, Gather(names, Left(names, p, x), None), New(names, x, None));
    } else {
      if sections == [] { EndKeepsNothing(names, p, x); } else { LastByKey(names, p, x, layer); }
      forall key | sections == [] || key != SectionKeyOf(names, sections[|sections| - 1])
        ensures SameKeys(names, Gather(names, Left(names, p, x), key), New(names, x, key))
      {
        OthersProject(names, p, x, layer, key);
      }
    }
  }

  lemma EndKeepsNothing(names: Names, p: Body, x: Body)
    requires Shown(names, p, x).sections == []
    ensures EndReads(names, p, x)
  {
    hide Shown;
  }

  /** By key: splitting an unedited writing view returns, section by section and in order, units of the keys of the
      layer's, if and only if the layer's lead stays in front and its last item is not swallowed. */
  lemma WritingViewProjectsByKey(names: Names, public: seq<Line>, extra: seq<Line>, layer: string)
    requires EdgeBlind(names) && Wordier(names)
    requires WellFormed(Parse(public, PUBLIC), PUBLIC) && WellFormed(Parse(extra, layer), layer)
    requires Separate(names, Parse(public, PUBLIC), Parse(extra, layer))
    ensures var p, x := Parse(public, PUBLIC), Parse(extra, layer);
            var got := SplitBody(names, Render(Merged(names, public, extra, layer)), public);
            (forall key :: SameKeys(names, Gather(names, got.sections, key), New(names, x, key))) <==>
              LeadStays(names, p, x) && EndReads(names, p, x)
  {
    hide Gather, Rest, Combine, Render, Parse, Separate, LeadStays, WellFormed, EndReads, ReadView, New, Parsed, Shown,
         EdgeBlind, Wordier, SameKeys;
    var p, x := Parse(public, PUBLIC), Parse(extra, layer);
    var got := SplitBody(names, Render(Merged(names, public, extra, layer)), public);
    ParsedIs(names, public, PUBLIC);
    ParsedIs(names, extra, layer);
    MergedReadsBack(names, public, extra, layer);
    assert got.sections == Left(names, p, x);
    ViewProjectsKeys(names, p, x, layer);
  }
}
