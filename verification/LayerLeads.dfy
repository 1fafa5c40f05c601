/** A writing view that does not project back: the layer's units before any heading move under the public
    page's last heading. */
module LayerLeads {
  import opened Options
  import opened Text
  import opened PageBodies
  import opened BodyRender
  import opened BodyParse
  import opened BodyRoundTrip
  import opened BodyNormal
  import opened LayerPages
  import opened LayerFacts
  import opened LayerSections
  import opened LayerSplit
  import opened LayerProject

  const HEADING := "## H"

  function Word(text: Line, layer: string): Unit { Unit(Paragraph, [text], layer) }

  function UnderHeading(layer: string): Body { Body("", [Section(Some(HEADING), [Word("x", layer)])]) }

  function Bare(layer: string): Body { Body("", [Section(None, [Word("y", layer)])]) }

  lemma WordOk(c: char, layer: string)
    requires c == 'x' || c == 'y'
    ensures UnitOk(Word([c], layer), layer) && Closed(Word([c], layer))
    ensures DropSpaces([c]) == [c] && TrimEnd([c]) == [c] && !Blank([c]) && !IsTitle([c])
  {
    var line := [c];
    assert line[0] == c && !IsSpace(c);
    assert Run(line, {'#'}) == 0 && Run(line, DIGITS) == 0;
    assert ClassOf(line) == Continues;
    var none: seq<Line> := [];
    assert [line][..0] == none;
    assert InFence([line]) == IsFence(line);
  }

  lemma HeadingIsHeading()
    ensures ClassOf(HEADING) == Heads && TrimEnd(HEADING) == HEADING && DropSpaces(HEADING) == HEADING
            && !Blank(HEADING)
    ensures !IsTitle(HEADING)
  {
    var h := HEADING;
    assert h[0] == '#' && h[1] == '#' && h[2] == ' ' && h[3] == 'H';
    assert !IsSpace(h[0]) && !IsSpace(h[3]);
    assert h[1..][1..] == h[2..];
    assert Run(h[2..], {'#'}) == 0;
    assert Run(h[1..], {'#'}) == 1;
    assert Run(h, {'#'}) == 2;
    assert h[2..][1] == 'H';
    NotFence(h);
  }

  lemma OneSectionText(s: Section)
    requires s.units != []
    ensures BodyText(Body("", [s])) == SectionText(s) && Settle([s]) == [s]
  {
    ChunksSnoc([], s);
    assert [] + [s] == [s];
    TextOf(Body("", [s]));
    assert Chunks([]) == [] && [s][..0] == [] && Settle([]) == [];
    assert Chunks([s]) == [SectionText(s)];
  }

  lemma OneSectionParses(s: Section, layer: string)
    requires SectionOk(s, layer) && s.units != [] && AllClosed(s.units) && Stripped(SectionText(s))
    requires SectionText(s) != [] && !IsTitle(SectionText(s)[0])
    ensures Parse(Render(Body("", [s])), layer) == Body("", [s]) && WellFormed(Body("", [s]), layer)
  {
    OneSectionText(s);
    WholeIsSound([s], layer);
    PrintsBack(Body("", [s]), layer);
  }

  lemma UnderHeadingParses(layer: string)
    ensures Parse(Render(UnderHeading(layer)), layer) == UnderHeading(layer) && WellFormed(UnderHeading(layer), layer)
  {
    var s := UnderHeading(layer).sections[0];
    WordOk('x', layer);
    HeadingIsHeading();
    assert SectionText(s) == [HEADING, "x"];
    assert [HEADING] + ["x"] == [HEADING, "x"];
    assert StripHead([HEADING, "x"]) == [HEADING, "x"];
    OneSectionParses(s, layer);
  }

  lemma BareParses(layer: string)
    ensures Parse(Render(Bare(layer)), layer) == Bare(layer) && WellFormed(Bare(layer), layer)
  {
    var s := Bare(layer).sections[0];
    WordOk('y', layer);
    assert SectionText(s) == ["y"];
    assert StripHead(["y"]) == ["y"];
    OneSectionParses(s, layer);
  }

  lemma GatherSingle(names: Names, s: Section, key: SectionKey)
    ensures Gather(names, [s], key) == if SectionKeyOf(names, s) == key then s.units else []
  {
    GatherOne(names, [], s, key);
    assert [] + [s] == [s];
  }

  /** The public page has one unit under a heading, the layer one before any: they share nothing, both are
      well formed, and yet the layer's unit comes back under the heading. */
  lemma LeadMoves(names: Names, layer: string) returns (public: seq<Line>, extra: seq<Line>)
    requires names.unit(["x"]) != names.unit(["y"])
    ensures WellFormed(Parse(public, PUBLIC), PUBLIC) && WellFormed(Parse(extra, layer), layer)
    ensures Separate(names, Parse(public, PUBLIC), Parse(extra, layer))
    ensures !LeadStays(names, Parse(public, PUBLIC), Parse(extra, layer))
    ensures var got := SplitBody(names, Render(Merged(names, public, extra, layer)), public).sections;
            !(forall key :: Gather(names, got, key) == New(names, Parse(extra, layer), key))
  {
    hide Parse, Render, Merged, SplitBody, WellFormed, Separate;
    public, extra := Render(UnderHeading(PUBLIC)), Render(Bare(layer));
    UnderHeadingParses(PUBLIC);
    BareParses(layer);
    SharesNothing(names, layer);
    var p, x := UnderHeading(PUBLIC), Bare(layer);
    var key := SectionKeyOf(names, p.sections[0]);
    GatherSingle(names, x.sections[0], None);
    GatherSingle(names, p.sections[0], None);
    GatherSingle(names, p.sections[0], key);
    GatherAppends(names, p.sections, x.sections, key);
    assert p.sections[0] in p.sections;
    assert !LeadStays(names, p, x);
    WritingViewProjects(names, public, extra, layer);
  }

  lemma SharesNothing(names: Names, layer: string)
    requires names.unit(["x"]) != names.unit(["y"])
    ensures Separate(names, UnderHeading(PUBLIC), Bare(layer))
  {
    var p, x := UnderHeading(PUBLIC), Bare(layer);
    forall key ensures Gather(names, x.sections, key) == if key == None then x.sections[0].units else [] {
      GatherSingle(names, x.sections[0], key);
    }
    forall key, u | u in Gather(names, x.sections, key) ensures KeyOf(names, u) !in Known(names, p.sections) {
      assert u == Word("y", layer);
    }
  }
}
