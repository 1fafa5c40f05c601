/** Writing views whose end is not read back: their last item is swallowed, or loses the white space after it. */
module LayerEnds {
  import opened Options
  import opened Text
  import opened PageBodies
  import opened BodyRender
  import opened BodyParse
  import opened BodyRoundTrip
  import opened BodyNormal
  import opened BodyEdges
  import opened BodyReadBack
  import opened BodyStable
  import opened LayerPages
  import opened LayerFacts
  import opened LayerSections
  import opened LayerSplit
  import opened LayerStored
  import opened LayerUnseen
  import opened LayerProject
  import opened LayerLosses

  const OLD: Line := "## A"
  const NEW: Line := "## N"

  /** One line of a page, stored in a layer. */
  function One(kind: Kind, line: Line, layer: string): Unit { Unit(kind, [line], layer) }

  function Under(heading: Line, units: seq<Unit>): Section { Section(Some(heading), units) }

  lemma HeadingLine(c: char)
    requires c == 'A' || c == 'N'
    ensures var h := "## " + [c];
            ClassOf(h) == Heads && TrimEnd(h) == h && DropSpaces(h) == h && !Blank(h) && !IsTitle(h)
  {
    var h := "## " + [c];
    assert h[0] == '#' && h[1] == '#' && h[2] == ' ' && h[3] == c && !IsSpace(h[0]) && !IsSpace(h[3]);
    assert h[1..][1..] == h[2..];
    assert Run(h[2..], {'#'}) == 0;
    assert Run(h[1..], {'#'}) == 1;
    assert Run(h, {'#'}) == 2;
    assert h[2..][1] == c;
    NotFence(h);
  }

  lemma Headings()
    ensures HeadingOk(Some(OLD)) && HeadingOk(Some(NEW))
  {
    HeadingLine('A');
    HeadingLine('N');
    assert "## " + ['A'] == OLD && "## " + ['N'] == NEW;
  }

  // ---- pages ------------------------------------------------------------------------------------------

  /** A page of sections with headings that ends without white space is well formed, and parsed as it stands. */
  lemma HeadedParses(b: Body, layer: string)
    requires b.title == "" && b.sections != [] && UnderHeads(b.sections) && Whole(b.sections, layer)
             && b.sections[0].heading.Some?
    requires var last := LastUnits(b); last != [] && var line := last[|last| - 1].lines;
             line != [] && !Blank(line[|line| - 1]) && TrimEnd(line[|line| - 1]) == line[|line| - 1]
    ensures Parse(Render(b), layer) == b && WellFormed(b, layer)
  {
    hide Parse, Render, Whole, UnderHeads, Printable, Sound, BodyText, Stripped, Blank, TrimEnd;
    WholeIsSound(b.sections, layer);
    HeadedStripped(b, layer);
    SelfRead(b, layer);
  }

  lemma HeadedStripped(b: Body, layer: string)
    requires b.title == "" && b.sections != [] && UnderHeads(b.sections) && Whole(b.sections, layer)
             && b.sections[0].heading.Some?
    requires var last := LastUnits(b); last != [] && var line := last[|last| - 1].lines;
             line != [] && !Blank(line[|line| - 1]) && TrimEnd(line[|line| - 1]) == line[|line| - 1]
    ensures Printable(b) && Stripped(BodyText(b))
  {
    hide BodyText, Stripped, ClassOf, Before, UnitsText, Blank, TrimEnd, IsTitle, UnitOk, AllClosed, DropSpaces;
    WholeIsSound(b.sections, layer);
    var text := BodyText(b);
    FirstLine(b, layer);
    assert SectionOk(b.sections[0], layer);
    HeadingStart(text[0]);
    DropSpacesIs(text[0], 0);
    BodyTextLast(b);
    UnitsTextLast(LastUnits(b));
    EndsWith(Ahead(b), Before(LastUnits(b)), LastUnits(b)[|LastUnits(b)| - 1].lines);
    StrippedIs(text);
  }

  lemma EndsWith(a: seq<Line>, b: seq<Line>, c: seq<Line>)
    requires c != []
    ensures var text := a + (b + c); text != [] && text[|text| - 1] == c[|c| - 1]
  {
  }

  /** A public page of one unit under a heading, and a layer's page of units under another, and one unit more under
      the public page's. */
  function PublicPage(): Body { Body("", [Under(OLD, [One(Paragraph, "a", PUBLIC)])]) }

  function LayerPage(units: seq<Unit>, layer: string): Body {
    Body("", [Under(NEW, units), Under(OLD, [One(Paragraph, "b", layer)])])
  }

  lemma Letter(line: Line)
    requires line == "a" || line == "b"
    ensures ClassOf(line) == Continues && !Blank(line) && TrimEnd(line) == line
  {
    PlainLine(line, line[0]);
    TrimEndIs(line, 1);
  }

  lemma PagesParse(units: seq<Unit>, layer: string)
    requires units != [] && UnitsOk(units, layer) && AllClosed(units)
    ensures Parse(Render(PublicPage()), PUBLIC) == PublicPage() && WellFormed(PublicPage(), PUBLIC)
    ensures Parse(Render(LayerPage(units, layer)), layer) == LayerPage(units, layer)
            && WellFormed(LayerPage(units, layer), layer)
  {
    hide ClassOf, Parse, Render, Stripped, BodyText, WellFormed, UnitOk, Closed;
    Headings();
    Letter("a");
    Letter("b");
    OneLine(One(Paragraph, "a", PUBLIC));
    OneLine(One(Paragraph, "b", layer));
    HeadedParses(PublicPage(), PUBLIC);
    HeadedParses(LayerPage(units, layer), layer);
  }

  /** What keys must tell apart. */
  ghost predicate Apart(names: Names, units: seq<Unit>) {
    && names.heading(OLD) != names.heading(NEW) && names.heading(OLD) != CONNECTIONS
    && names.heading(NEW) != CONNECTIONS
    && names.unit(["b"]) != names.unit(["a"]) && DistinctKeys(names, units)
    && forall u :: u in units ==> KeyOf(names, u) != names.unit(["a"])
  }

  lemma LayerUnder(names: Names, units: seq<Unit>, layer: string, key: SectionKey)
    requires names.heading(OLD) != names.heading(NEW)
    ensures Gather(names, LayerPage(units, layer).sections, key) ==
            if key == Some(names.heading(NEW)) then units
            else if key == Some(names.heading(OLD)) then [One(Paragraph, "b", layer)] else []
  {
    var sections := LayerPage(units, layer).sections;
    GatherOne(names, [], sections[0], key);
    GatherOne(names, [sections[0]], sections[1], key);
    assert [] + [sections[0]] == [sections[0]] && [sections[0]] + [sections[1]] == sections;
    assert Gather(names, [], key) == [];
  }

  lemma PublicUnder(names: Names, key: SectionKey)
    ensures Gather(names, PublicPage().sections, key) ==
            if key == Some(names.heading(OLD)) then [One(Paragraph, "a", PUBLIC)] else []
    ensures Known(names, PublicPage().sections) == {names.unit(["a"])}
  {
    var sections := PublicPage().sections;
    GatherOne(names, [], sections[0], key);
    assert [] + [sections[0]] == sections;
    assert Gather(names, [], key) == [];
    assert sections[0].units[0] == One(Paragraph, "a", PUBLIC);
  }

  lemma PagesSeparate(names: Names, units: seq<Unit>, layer: string)
    requires Apart(names, units)
    ensures Separate(names, PublicPage(), LayerPage(units, layer))
    ensures Gather(names, LayerPage(units, layer).sections, None) == []
  {
    hide Gather, Known;
    var p, x := PublicPage(), LayerPage(units, layer);
    PublicUnder(names, None);
    forall key ensures Gather(names, x.sections, key) ==
      if key == Some(names.heading(NEW)) then units
      else if key == Some(names.heading(OLD)) then [One(Paragraph, "b", layer)] else []
    {
      LayerUnder(names, units, layer, key);
    }
  }

  /** Two headings with units are printed in their order. */
  lemma TwoShown(names: Names, p: Body, x: Body, a: SectionKey, b: SectionKey)
    requires Order(names, p.sections + x.sections) == [a, b]
    requires Gather(names, p.sections + x.sections, a) != [] && Gather(names, p.sections + x.sections, b) != []
    ensures var v := Shown(names, p, x); |v.sections| == 2 && SectionKeyOf(names, v.sections[1]) == b
  {
    hide Filled, Gather, CombineSections, RelabelAll;
    var all := p.sections + x.sections;
    var r := RelabelAll(CombineSections(names, all, [a, b], false), PUBLIC);
    TwoSections(p, x);
    CombinedKeyed(names, all, false);
    CombinedUnits(names, all, 0);
    CombinedUnits(names, all, 1);
    assert |r| == 2;
    FilledAll(r);
  }

  /** The layer's own heading is printed last. */
  lemma NewIsLast(names: Names, units: seq<Unit>, layer: string)
    requires Apart(names, units) && units != []
    ensures var v := Shown(names, PublicPage(), LayerPage(units, layer));
            |v.sections| == 2 && SectionKeyOf(names, v.sections[1]) == Some(names.heading(NEW))
  {
    hide Gather, Shown;
    var p, x := PublicPage(), LayerPage(units, layer);
    PageOrder(names, units, layer);
    var keys := Order(names, p.sections + x.sections);
    PublicUnder(names, keys[0]);
    LayerUnder(names, units, layer, keys[0]);
    PublicUnder(names, keys[1]);
    LayerUnder(names, units, layer, keys[1]);
    GatherAppends(names, p.sections, x.sections, keys[0]);
    GatherAppends(names, p.sections, x.sections, keys[1]);
    TwoShown(names, p, x, keys[0], keys[1]);
  }

  lemma PageOrder(names: Names, units: seq<Unit>, layer: string)
    requires names.heading(OLD) != names.heading(NEW)
    ensures Order(names, PublicPage().sections + LayerPage(units, layer).sections) ==
            [Some(names.heading(OLD)), Some(names.heading(NEW))]
  {
    var p, x := PublicPage().sections, LayerPage(units, layer).sections;
    var all := p + x;
    assert all[..2][..1] == p && all[..1][..0] == [] && all[..2] == p + [x[0]];
    assert Order(names, all[..1]) == [Some(names.heading(OLD))] by { assert all[..1] == p && p[..0] == []; }
    assert Order(names, all[..2]) == [Some(names.heading(OLD)), Some(names.heading(NEW))];
  }

  /** So the layer's units under it end the text. */
  lemma NewEnds(names: Names, units: seq<Unit>, layer: string)
    requires Apart(names, units) && units != [] && UnitsOk(units, layer) && AllClosed(units)
    ensures var p, x := PublicPage(), LayerPage(units, layer);
            && Pair(names, p, x, layer) && LeadStays(names, p, x)
            && LastUnits(Shown(names, p, x)) == Relabel(units, PUBLIC) && LayerLast(names, p, x)
  {
    hide Parse, Render, Gather, Shown, WellFormed, Parsed, Separate, Apart, UnitsOk, AllClosed, Dedupe, Tailed, Known;
    var p, x := PublicPage(), LayerPage(units, layer);
    PagesParse(units, layer);
    PagesSeparate(names, units, layer);
    ParsedIs(names, Render(p), PUBLIC);
    ParsedIs(names, Render(x), layer);
    NewIsLast(names, units, layer);
    LastIs(names, p, x, layer);
    NothingOld(names, units);
    LayerUnder(names, units, layer, Some(names.heading(NEW)));
    assert [] + Relabel(units, PUBLIC) == Relabel(units, PUBLIC);
  }

  lemma NothingOld(names: Names, units: seq<Unit>)
    requires Apart(names, units)
    ensures Old(names, PublicPage(), Some(names.heading(NEW))) == [] && names.heading(OLD) != names.heading(NEW)
  {
    hide Gather;
    PublicUnder(names, Some(names.heading(NEW)));
    assert Dedupe(names, [], false) == [];
  }

  function Bulleted(layer: string): seq<Unit> { [One(Item, "- a", layer), One(Item, "- ", layer)] }

  lemma BulletedOk(layer: string)
    ensures UnitsOk(Bulleted(layer), layer) && AllClosed(Bulleted(layer))
    ensures var last := Relabel(Bulleted(layer), PUBLIC);
            Swallowed(last) && TailUnit(last[|last| - 1]) != last[|last| - 1]
  {
    hide ClassOf;
    Bullets();
    OneLine(One(Item, "- a", layer));
    OneLine(One(Item, "- ", layer));
    StripTailIs(["- "], 0);
    assert StripTail(["- "]) == ["-"];
  }

  /** The public page "## A", "a" and the layer's page "## N", "- a", "- ", "", "## A", "b": both are well formed,
      they share nothing, and the layer has no lead; and yet its second item is lost, by its key too. */
  lemma ItemLost(names: Names, layer: string)
    requires Apart(names, Bulleted(layer))
    ensures var p, x := PublicPage(), LayerPage(Bulleted(layer), layer);
            && Parse(Render(p), PUBLIC) == p && Parse(Render(x), layer) == x && Pair(names, p, x, layer)
            && LeadStays(names, p, x)
            && var got := SplitBody(names, Render(Merged(names, Render(p), Render(x), layer)), Render(p)).sections;
               && !(forall key :: Gather(names, got, key) == New(names, x, key))
               && (EdgeBlind(names) && Wordier(names) ==>
                   !(forall key :: SameKeys(names, Gather(names, got, key), New(names, x, key))))
  {
    hide Parse, Render, Gather, Shown, Pair, Apart, UnitsOk, AllClosed, Merged, SplitBody, LeadStays, LayerLast,
         Relabel, Swallowed, WellFormed, EdgeBlind, Wordier, SameKeys, TailUnit;
    var p, x := PublicPage(), LayerPage(Bulleted(layer), layer);
    BulletedOk(layer);
    PagesParse(Bulleted(layer), layer);
    NewEnds(names, Bulleted(layer), layer);
    assert Separate(names, p, x) by { PagesSeparate(names, Bulleted(layer), layer); }
    WritingViewProjects(names, Render(p), Render(x), layer);
    if EdgeBlind(names) && Wordier(names) { WritingViewProjectsByKey(names, Render(p), Render(x), layer); }
  }

  function Spaced(layer: string): seq<Unit> { [One(Paragraph, "y ", layer)] }

  /** And with "## N", "y ", "", "## A", "b" the unit comes back without the space after it. */
  lemma SpaceLost(names: Names, layer: string)
    requires Apart(names, Spaced(layer))
    ensures var p, x := PublicPage(), LayerPage(Spaced(layer), layer);
            && Parse(Render(p), PUBLIC) == p && Parse(Render(x), layer) == x && Pair(names, p, x, layer)
            && LeadStays(names, p, x)
            && var got := SplitBody(names, Render(Merged(names, Render(p), Render(x), layer)), Render(p)).sections;
               !(forall key :: Gather(names, got, key) == New(names, x, key))
  {
    hide Parse, Render, Gather, Shown, Pair, Apart, Merged, SplitBody, LeadStays, LayerLast, WellFormed, ClassOf;
    var p, x := PublicPage(), LayerPage(Spaced(layer), layer);
    SpacedOk(layer);
    PagesParse(Spaced(layer), layer);
    NewEnds(names, Spaced(layer), layer);
    assert Separate(names, p, x) by { PagesSeparate(names, Spaced(layer), layer); }
    WritingViewProjects(names, Render(p), Render(x), layer);
  }

  lemma SpacedOk(layer: string)
    ensures UnitsOk(Spaced(layer), layer) && AllClosed(Spaced(layer))
    ensures var last := Relabel(Spaced(layer), PUBLIC); TailUnit(last[|last| - 1]) != last[|last| - 1]
  {
    hide ClassOf;
    SpacedLine();
    OneLine(One(Paragraph, "y ", layer));
    StripTailIs(["y "], 0);
    assert StripTail(["y "]) == ["y"];
  }

  // ---- an item of the public page ---------------------------------------------------------------------

  /** A public page with one heading twice, around another; merged, the other comes last. */
  function Around(): Body {
    Body("", [Under(NEW, [One(Paragraph, "a", PUBLIC)]), Under(OLD, Bulleted(PUBLIC)),
              Under(NEW, [One(Paragraph, "b", PUBLIC)])])
  }

  const NO_PAGE := Body("", [])

  lemma AroundParses()
    ensures Parse(Render(Around()), PUBLIC) == Around() && WellFormed(Around(), PUBLIC)
  {
    hide ClassOf, Parse, Render, Stripped, BodyText, WellFormed, UnitOk, Closed;
    Headings();
    Letter("a");
    Letter("b");
    BulletedOk(PUBLIC);
    OneLine(One(Paragraph, "a", PUBLIC));
    OneLine(One(Paragraph, "b", PUBLIC));
    HeadedParses(Around(), PUBLIC);
  }

  lemma AroundUnder(names: Names, key: SectionKey)
    requires names.heading(OLD) != names.heading(NEW)
    ensures Gather(names, Around().sections, key) ==
            if key == Some(names.heading(NEW)) then [One(Paragraph, "a", PUBLIC), One(Paragraph, "b", PUBLIC)]
            else if key == Some(names.heading(OLD)) then Bulleted(PUBLIC) else []
  {
    var s := Around().sections;
    GatherOne(names, [], s[0], key);
    GatherOne(names, [s[0]], s[1], key);
    GatherOne(names, [s[0], s[1]], s[2], key);
    assert [] + [s[0]] == [s[0]] && [s[0]] + [s[1]] == [s[0], s[1]] && [s[0], s[1]] + [s[2]] == s;
    assert Gather(names, [], key) == [];
  }

  lemma AroundOrder(names: Names)
    requires names.heading(OLD) != names.heading(NEW)
    ensures Order(names, Around().sections + []) == [Some(names.heading(NEW)), Some(names.heading(OLD))]
  {
    var s := Around().sections;
    assert s + [] == s && s[..2][..1] == [s[0]] && [s[0]][..0] == [];
    assert Order(names, [s[0]]) == [Some(names.heading(NEW))];
    assert Order(names, s[..2]) == [Some(names.heading(NEW)), Some(names.heading(OLD))];
  }

  lemma OldIsLast(names: Names)
    requires names.heading(OLD) != names.heading(NEW)
    ensures var v := Shown(names, Around(), NO_PAGE);
            |v.sections| == 2 && SectionKeyOf(names, v.sections[1]) == Some(names.heading(OLD))
  {
    hide Gather, Shown;
    assert Around().sections + [] == Around().sections;
    AroundOrder(names);
    var keys := Order(names, Around().sections);
    AroundUnder(names, keys[0]);
    AroundUnder(names, keys[1]);
    TwoShown(names, Around(), NO_PAGE, keys[0], keys[1]);
  }

  lemma NoPage(names: Names, layer: string)
    ensures Parse(NOTHING, layer) == NO_PAGE && WellFormed(NO_PAGE, layer) && Separate(names, Around(), NO_PAGE)
    ensures forall key :: Gather(names, NO_PAGE.sections, key) == []
  {
    hide Parse, BodyText, Stripped;
    ParseNothing(layer);
    NoText();
  }

  lemma NoText()
    ensures BodyText(NO_PAGE) == [] && Stripped([])
  {
    TextOf(NO_PAGE);
    assert Chunks([]) == [];
  }

  lemma OldItems(names: Names)
    requires names.heading(OLD) != names.heading(NEW) && names.heading(OLD) != CONNECTIONS
             && names.unit(["- a"]) != names.unit(["- "])
    ensures Old(names, Around(), Some(names.heading(OLD))) == Relabel(Bulleted(PUBLIC), PUBLIC)
  {
    hide Gather, Dedupe;
    AroundUnder(names, Some(names.heading(OLD)));
    BulletedNew(names);
  }

  lemma BulletedNew(names: Names)
    requires names.unit(["- a"]) != names.unit(["- "])
    ensures Dedupe(names, Bulleted(PUBLIC), false) == Bulleted(PUBLIC)
  {
    DedupeNew(names, [], Bulleted(PUBLIC), false);
    assert [] + Bulleted(PUBLIC) == Bulleted(PUBLIC);
    assert Dedupe(names, [], false) == [];
  }

  /** The public page "## N", "a", "", "## A", "- a", "- ", "", "## N", "b", and nothing in the layer: merged, the
      items come last, and the split returns a unit that is of neither page. */
  lemma ItemGained(names: Names, layer: string)
    requires names.heading(OLD) != names.heading(NEW) && names.heading(OLD) != CONNECTIONS
             && names.unit(["- a"]) != names.unit(["- "])
    requires names.unit(["- a", "-"]) !in Known(names, Around().sections)
    ensures Parse(Render(Around()), PUBLIC) == Around() && Pair(names, Around(), NO_PAGE, layer)
    ensures var got := SplitBody(names, Render(Merged(names, Render(Around()), NOTHING, layer)),
                                 Render(Around())).sections;
            !(forall key :: Gather(names, got, key) == [])
  {
    hide Parse, Render, Gather, Shown, Parsed, WellFormed, Merged, SplitBody, Separate, ClassOf, Known;
    var p := Around();
    AroundParses();
    NoPage(names, layer);
    ParsedIs(names, Render(p), PUBLIC);
    ParsedIs(names, NOTHING, layer);
    OldIsLast(names);
    LastIs(names, p, NO_PAGE, layer);
    OldItems(names);
    assert forall key :: New(names, NO_PAGE, key) == [];
    assert LastUnits(Shown(names, p, NO_PAGE)) == Relabel(Bulleted(PUBLIC), PUBLIC);
    BulletedEnd();
    WritingViewProjects(names, Render(p), NOTHING, layer);
  }

  lemma BulletedEnd()
    ensures var r := TailUnits(Relabel(Bulleted(PUBLIC), PUBLIC)); r != [] && r[|r| - 1].lines == ["- a", "-"]
  {
    hide ClassOf;
    Bullets();
    StripTailIs(["- "], 0);
    assert StripTail(["- "]) == ["-"];
  }
}
