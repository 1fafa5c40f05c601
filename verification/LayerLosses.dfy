/** Texts that do not survive printing, and bodies of which a reader misses a unit. */
module LayerLosses {
  import opened Options
  import opened Text
  import opened PageBodies
  import opened BodyRender
  import opened BodyParse
  import opened BodyRoundTrip
  import opened BodyNormal
  import opened BodyEdges
  import opened BodyReadBack
  import opened BodyLost
  import opened LayerPages
  import opened LayerFacts
  import opened LayerSections
  import opened LayerSplit
  import opened LayerStored
  import opened LayerFuse
  import opened LayerUnseen

  const NOTHING: seq<Line> := [""]

  function Para(line: Line): Unit { Unit(Paragraph, [line], PUBLIC) }

  function Bullet(line: Line): Unit { Unit(Item, [line], PUBLIC) }

  function Lead(units: seq<Unit>): Body { Body("", [Section(None, units)]) }

  lemma ParseOwn(lines: seq<Line>, layer: string)
    requires lines != [] && !Blank(lines[0]) && lines[|lines| - 1] != [] && !IsTitle(lines[0])
    ensures Parse(lines, layer) == Body("", Keep(ParseFrom(lines, layer)))
  {
    hide ParseFrom, Keep;
    var none: Line := [];
    assert Blank(none);
    assert TrimEmpty(lines) == lines && SkipBlank(lines) == lines;
  }

  /** A text that starts with text and ends with a line is parsed as it stands. */
  lemma OwnText(b: Body)
    requires b.title == "" && b.sections != [] && UnderHeads(b.sections) && Whole(b.sections, PUBLIC)
    requires var text := BodyText(b); text != [] && !Blank(text[0]) && text[|text| - 1] != [] && !IsTitle(text[0])
    ensures Parse(BodyText(b), PUBLIC) == b && Sound(b.sections, PUBLIC)
  {
    hide ParseFrom, Keep, Settle, Filled, Parse, BodyText, Join, Chunks;
    WholeIsSound(b.sections, PUBLIC);
    TextOf(b);
    SectionsParse(b.sections, PUBLIC);
    SettleFills(b.sections);
    FilledAll(b.sections);
    ParseOwn(BodyText(b), PUBLIC);
  }

  lemma LeadParses(units: seq<Unit>)
    requires units != [] && UnitsOk(units, PUBLIC) && AllClosed(units)
    requires var text := UnitsText(units); text != [] && !Blank(text[0]) && text[|text| - 1] != [] && !IsTitle(text[0])
    ensures Parse(UnitsText(units), PUBLIC) == Lead(units)
    ensures BodyText(Lead(units)) == UnitsText(units) && Sound(Lead(units).sections, PUBLIC)
  {
    hide UnitsText, Parse;
    var s := Section(None, units);
    assert SectionText(s) == UnitsText(units);
    assert [s][..0] == [] && Chunks([s][..0]) == [];
    assert Chunks([s]) == [UnitsText(units)];
    TextOf(Lead(units));
    OwnText(Lead(units));
  }

  // ---- lines ------------------------------------------------------------------------------------------

  lemma PlainLine(line: Line, c: char)
    requires line != [] && line[0] == c && !IsSpace(c) && c !in {'#', '-', '*', '+', '`', '<'} && c !in DIGITS
    ensures ClassOf(line) == Continues && !Blank(line) && !IsTitle(line)
  {
    NotFence(line);
    assert Run(line, {'#'}) == 0 && Run(line, DIGITS) == 0;
  }

  lemma TitleLine()
    ensures var t: Line := TITLED;
            ClassOf(t) == Continues && IsTitle(t) && DropSpaces(t) == t && TrimEnd(t) == t && !Blank(t)
  {
    var t: Line := TITLED;
    assert t[0] == '#' && t[1] == ' ' && t[2] == 'T' && !IsSpace('#') && !IsSpace('T');
    NotFence(t);
    assert Run(t[1..], {'#'}) == 0;
    assert Run(t, {'#'}) == 1 && Run(t, DIGITS) == 0;
  }

  lemma IndentedHeading()
    ensures var t: Line := INDENTED;
            ClassOf(t) == Continues && !IsTitle(t) && DropSpaces(t) == "## H" && TrimEnd(t) == t && !Blank(t)
              && ClassOf("## H") == Heads && !IsTitle("## H")
  {
    var t: Line, h: Line := INDENTED, "## H";
    assert t[0] == ' ' && t[1] == ' ' && t[2..] == h;
    assert h[0] == '#' && h[1] == '#' && h[2] == ' ' && h[3] == 'H' && !IsSpace('#') && !IsSpace('H') && IsSpace(' ');
    DropSpacesIs(t, 2);
    assert t[|t| - 1] == 'H';
    NotFence(h);
    FenceEdges(t);
    assert h[1..][1..] == h[2..];
    assert Run(h[2..], {'#'}) == 0;
    assert Run(h[1..], {'#'}) == 1;
    assert Run(h, {'#'}) == 2;
    assert h[2..][1] == 'H';
    assert Run(t, {'#'}) == 0 && Run(t, DIGITS) == 0;
  }

  lemma Bullets()
    ensures var a: Line, z: Line := "- a", "- ";
            ClassOf(a) == StartsItem && ClassOf(z) == StartsItem && !Blank(a) && !Blank(z) && !IsTitle(a)
              && TrimEnd(z) == "-" && !IsItem("-")
  {
    var a: Line, z: Line, mark: Line := "- a", "- ", "-";
    assert a[0] == '-' && a[1] == ' ' && z[0] == '-' && z[1] == ' ' && !IsSpace('-') && IsSpace(' ');
    NotFence(a);
    NotFence(z);
    assert z[..1] == mark;
    TrimEndIs(z, 1);
    assert Run(a, {'#'}) == 0 && Run(z, {'#'}) == 0 && Run(mark, DIGITS) == 0;
  }

  // ---- bodies -----------------------------------------------------------------------------------------

  lemma NothingParses()
    ensures Parse(NOTHING, PUBLIC) == Body("", [])
  {
    ParseNothing(PUBLIC);
  }

  /** What the split leaves of a body without headings. */
  lemma SplitLead(names: Names, text: seq<Line>, public: seq<Line>, units: seq<Unit>, left: seq<Unit>)
    requires Parse(text, PUBLIC) == Lead(units) && left != []
    requires Without(names, units, Known(names, Parse(public, PUBLIC).sections)) == left
    ensures SplitBody(names, text, public) == Lead(left)
  {
    hide Parse, Known;
    var known := Known(names, Parse(public, PUBLIC).sections);
    var s := Section(None, units);
    assert [s][..0] == [];
    assert Rest(names, [], known) == [];
    assert Rest(names, [s], known) == [Section(None, left)];
  }

  lemma LeadOnce(names: Names, units: seq<Unit>)
    requires DistinctKeys(names, units)
    ensures NoRepeats(names, Lead(units))
  {
    var s := Section(None, units);
    forall key ensures DistinctKeys(names, Gather(names, [s], key)) {
      GatherOne(names, [], s, key);
      assert [] + [s] == [s] && [] + units == units;
    }
  }

  lemma ParaTail(line: Line)
    requires TrimEnd(line) == line && !Blank(line)
    ensures TailUnit(Para(line)) == Para(line)
  {
    StripTailIs([line], 0);
    assert [line][..0] + [TrimEnd(line)] == [line];
  }

  /** One paragraph left of a body, its first line read as something else. */
  lemma OneUnseen(names: Names, text: seq<Line>, public: seq<Line>, layer: string, line: Line) returns (key: SectionKey)
    requires EdgeBlind(names) && Wordier(names) && Linked(names) && layer != PUBLIC
    requires SplitBody(names, text, public) == Lead([Para(line)]) && TrimEnd(line) == line && !Blank(line)
    requires IsTitle(DropSpaces(line)) || ClassOf(DropSpaces(line)) == Heads
    requires ClassOf(DropSpaces(line)) in {Heads, Continues}
    ensures !FusedAt(names, text, public, layer, key)
  {
    hide Parse, SplitBody, ClassOf, EdgeBlind, Wordier, Linked;
    var rest := Lead([Para(line)]);
    LeadOnce(names, [Para(line)]);
    ParaTail(line);
    assert TailUnits([Para(line)]) == [Para(line)];
    assert Tailed(rest) == rest;
    key := UnreadIsUnseen(names, text, public, layer);
  }

  lemma TwoText(a: Unit, b: Unit)
    ensures UnitsText([a]) == a.lines && UnitsText([a, b]) == a.lines + Gap(a, b) + b.lines
  {
    assert [a, b][..1] == [a];
  }

  /** Of two units, the first known. */
  lemma SecondLeft(names: Names, a: Unit, b: Unit)
    requires KeyOf(names, a) != KeyOf(names, b)
    ensures Without(names, [a, b], {KeyOf(names, a)}) == [b]
  {
    assert [a, b][..1] == [a] && [a][..0] == [];
    assert Without(names, [a], {KeyOf(names, a)}) == [];
  }

  const TITLED: Line := "# T"

  lemma StrayTitleParses()
    ensures Parse(["x", "", TITLED], PUBLIC) == Lead([Para("x"), Para(TITLED)])
            && Parse(["x"], PUBLIC) == Lead([Para("x")])
  {
    hide Parse, ClassOf, UnitsText, UnitOk, Closed;
    PlainLine("x", 'x');
    TitleLine();
    var x, t := Para("x"), Para(TITLED);
    OneLine(x);
    OneLine(t);
    TwoText(x, t);
    LeadParses([x]);
    assert x.lines + [""] + t.lines == ["x", "", TITLED];
    LeadParses([x, t]);
  }

  /** What is left of a body "x" and "# T" by a public page "x". */
  lemma StrayTitleLeft(names: Names)
    requires names.unit(["x"]) != names.unit([TITLED])
    ensures SplitBody(names, ["x", "", TITLED], ["x"]) == Lead([Para(TITLED)])
  {
    hide Parse, SplitBody, Known, Without;
    var text, public := ["x", "", TITLED], ["x"];
    var x, t := Para("x"), Para(TITLED);
    StrayTitleParses();
    OneKnown(names, x);
    SecondLeft(names, x, t);
    SplitLead(names, text, public, [x, t], [t]);
  }

  /** A public page "x", and a body that adds a paragraph "# T" to it: the line is stored first, and read back
      as the title. */
  lemma StrayTitleUnseen(names: Names, layer: string) returns (text: seq<Line>, public: seq<Line>, key: SectionKey)
    requires EdgeBlind(names) && Wordier(names) && Linked(names) && layer != PUBLIC
             && names.unit(["x"]) != names.unit([TITLED])
    ensures text == ["x", "", TITLED] && public == ["x"]
    ensures !FusedAt(names, text, public, layer, key)
    ensures var rest := SplitBody(names, text, public); Parse(Split(names, text, public), layer) != Marked(rest, layer)
  {
    hide Parse, EdgeBlind, Wordier, Linked, FusedAt, ClassOf, SplitBody, Split, Printable;
    text, public := ["x", "", TITLED], ["x"];
    TitleLine();
    StrayTitleLeft(names);
    key := OneUnseen(names, text, public, layer, TITLED);
    SplitReadsBack(names, text, public, layer);
    StrayIsNotPrintable(Para(TITLED));
  }

  lemma OneKnown(names: Names, u: Unit)
    ensures Known(names, Lead([u]).sections) == {KeyOf(names, u)}
  {
    var sections := Lead([u]).sections;
    assert sections[0].units[0] == u;
  }

  lemma StrayIsNotPrintable(u: Unit)
    requires u.lines != [] && IsTitle(u.lines[0])
    ensures !Printable(Lead([u]))
  {
    var s := Section(None, [u]);
    assert [s][..0] == [] && Chunks([s][..0]) == [];
    assert SectionText(s) == u.lines;
    assert Chunks([s]) == [u.lines];
    TextOf(Lead([u]));
  }

  const INDENTED: Line := "  ## H"

  lemma HeadingLeft(names: Names)
    ensures SplitBody(names, [INDENTED], NOTHING) == Lead([Para(INDENTED)])
  {
    hide Parse, ClassOf, UnitsText, SplitBody, UnitOk, Closed;
    var h := Para(INDENTED);
    IndentedHeading();
    OneLine(h);
    TwoText(h, h);
    LeadParses([h]);
    NothingParses();
    WithoutNone(names, [h], {});
    assert Known(names, []) == {};
    SplitLead(names, [INDENTED], NOTHING, [h], [h]);
  }

  /** A body of one paragraph, indented like no heading may be: stripped, it is one. */
  lemma HeadingUnseen(names: Names, layer: string) returns (key: SectionKey)
    requires EdgeBlind(names) && Wordier(names) && Linked(names) && layer != PUBLIC
    ensures !FusedAt(names, [INDENTED], NOTHING, layer, key)
  {
    hide Parse, EdgeBlind, Wordier, Linked, FusedAt, ClassOf, SplitBody, IsTitle;
    IndentedHeading();
    HeadingLeft(names);
    key := OneUnseen(names, [INDENTED], NOTHING, layer, INDENTED);
  }

  lemma BareItemSwallowed()
    ensures var units := [Bullet("- a"), Bullet("- ")];
            Swallowed(units) && TailUnits(units)[0].kind == Item && TailUnits(units) != []
  {
    hide ClassOf;
    Bullets();
    var z := Bullet("- ");
    StripTailIs(["- "], 0);
    assert TailUnit(z).lines == ["-"];
  }

  lemma BareItemLeft(names: Names)
    ensures SplitBody(names, ["- a", "- "], NOTHING) == Lead([Bullet("- a"), Bullet("- ")])
  {
    hide Parse, ClassOf, UnitsText, SplitBody, UnitOk, Closed;
    Bullets();
    var a, z := Bullet("- a"), Bullet("- ");
    OneLine(a);
    OneLine(z);
    TwoText(a, z);
    assert a.lines + [] + z.lines == ["- a", "- "];
    LeadParses([a, z]);
    NothingParses();
    WithoutNone(names, [a, z], {});
    assert Known(names, []) == {};
    SplitLead(names, ["- a", "- "], NOTHING, [a, z], [a, z]);
  }

  /** A body of two items, the second without text: stripped, its mark is read as a line of the first. */
  lemma BareItemUnseen(names: Names, layer: string) returns (text: seq<Line>, key: SectionKey)
    requires EdgeBlind(names) && Wordier(names) && Linked(names) && layer != PUBLIC
             && names.unit(["- a"]) != names.unit(["- "])
    ensures text == ["- a", "- "] && !FusedAt(names, text, NOTHING, layer, key)
  {
    hide Parse, EdgeBlind, Wordier, Linked, FusedAt, ClassOf, SplitBody, TailUnits, Swallowed;
    text := ["- a", "- "];
    BareItemLeft(names);
    BareItemSwallowed();
    LeadOnce(names, [Bullet("- a"), Bullet("- ")]);
    key := UnreadIsUnseen(names, text, NOTHING, layer);
  }

  const STRAY: Line := " " + CALLOUT_START

  /** An indented line with text that is no fence is a line of text. */
  lemma IndentedLine(line: Line)
    requires line != [] && line[0] == ' ' && !Blank(line) && !IsFence(line)
    ensures ClassOf(line) == Continues && !IsTitle(line)
  {
    hide IsFence, Blank;
    assert CALLOUT_START[0] == '<';
    assert Run(line, {'#'}) == 0 && Run(line, DIGITS) == 0;
  }

  lemma StrayEnds()
    ensures STRAY[0] == ' ' && STRAY[1..] == CALLOUT_START && STRAY[1] == '<' && STRAY[|STRAY| - 1] == ':'
  {
    assert CALLOUT_START == "<!-- stigmergy-contradiction-start" + ":";
    assert CALLOUT_START[0] == '<' && CALLOUT_START[|CALLOUT_START| - 1] == ':';
    assert STRAY[1..] == CALLOUT_START;
  }

  lemma StrayEdges()
    ensures !Blank(STRAY) && TrimEnd(STRAY) == STRAY && DropSpaces(STRAY) == CALLOUT_START && !IsFence(STRAY)
  {
    hide IsFence;
    StrayEnds();
    assert !IsSpace('<') && !IsSpace(':') && IsSpace(' ');
    DropSpacesIs(STRAY, 1);
    TrimEndIs(STRAY, |STRAY|);
    NotFence(CALLOUT_START);
    FenceEdges(STRAY);
  }

  lemma StrayLine()
    ensures ClassOf(STRAY) == Continues && !IsTitle(STRAY) && !Blank(STRAY) && TrimEnd(STRAY) == STRAY
            && DropSpaces(STRAY) == CALLOUT_START
  {
    hide IsFence, Blank, TrimEnd, DropSpaces, ClassOf, IsTitle;
    StrayEnds();
    StrayEdges();
    IndentedLine(STRAY);
  }

  lemma StrayParses()
    ensures Parse([STRAY, "", "y"], PUBLIC) == Lead([Para(STRAY), Para("y")])
  {
    hide Parse, ClassOf, UnitsText, UnitOk, Closed;
    var c, y := Para(STRAY), Para("y");
    StrayLine();
    PlainLine("y", 'y');
    OneLine(c);
    OneLine(y);
    TwoText(c, y);
    assert c.lines + [""] + y.lines == [STRAY, "", "y"];
    LeadParses([c, y]);
  }

  lemma StrayLeft(names: Names)
    ensures SplitBody(names, [STRAY, "", "y"], NOTHING) == Lead([Para(STRAY), Para("y")])
  {
    hide Parse, SplitBody;
    var c, y := Para(STRAY), Para("y");
    StrayParses();
    NothingParses();
    WithoutNone(names, [c, y], {});
    assert Known(names, []) == {};
    SplitLead(names, [STRAY, "", "y"], NOTHING, [c, y], [c, y]);
  }

  lemma StrayTailed()
    ensures var b := Lead([Para(STRAY), Para("y")]); Tailed(b) == b && Opens(b)
  {
    hide ClassOf, TailUnit;
    PlainLine("y", 'y');
    var y: Line := "y";
    TrimEndIs(y, 1);
    ParaTail(y);
    assert TailUnits([Para(STRAY), Para(y)]) == [Para(STRAY), Para(y)];
  }

  lemma StrayPrinted()
    ensures var b := Lead([Para(STRAY), Para("y")]);
            && Tailed(b) == b && Opens(b) && PrintedLines(b) == [CALLOUT_START, "", "y"]
            && FirstUnit(b) == Unit(Callout, [CALLOUT_START], PUBLIC) && !HeadOk(b)
  {
    hide BodyText, Parted, UnitsText;
    var b := Lead([Para(STRAY), Para("y")]);
    StrayTailed();
    StrayLine();
    PrintedAs(b);
    assert FirstUnit(b).lines == [CALLOUT_START];
    assert [Para(STRAY), Para("y")][1..] == [Para("y")];
    TwoText(Para("y"), Para("y"));
    assert Chunks([]) == [] && b.sections[1..] == [];
    assert AfterFirst([Para("y")], []) == ["", "y"];
    assert [CALLOUT_START] + ["", "y"] == [CALLOUT_START, "", "y"];
  }

  /** A body of two paragraphs, the first indented like no callout may be: stripped, it starts one without an end,
      that takes in the second. */
  lemma CalloutUnseen(names: Names, layer: string) returns (key: SectionKey)
    requires EdgeBlind(names) && Wordier(names) && Linked(names) && layer != PUBLIC
             && names.unit([STRAY]) != names.unit(["y"])
    ensures !FusedAt(names, [STRAY, "", "y"], NOTHING, layer, key)
  {
    hide Parse, EdgeBlind, Wordier, Linked, FusedAt, ClassOf, SplitBody, HeadOk, FirstUnit, PrintedLines, Tailed;
    StrayLeft(names);
    StrayPrinted();
    LeadOnce(names, [Para(STRAY), Para("y")]);
    NoEnd();
    key := UnreadIsUnseen(names, [STRAY, "", "y"], NOTHING, layer);
  }

  lemma NoEnd()
    ensures NoneEnds([CALLOUT_START, "", "y"][1..])
  {
    assert [CALLOUT_START, "", "y"][1..] == ["", "y"];
  }

  // ---- why each key must be new once ------------------------------------------------------------------

  function Tee(layer: string): Unit { Unit(Paragraph, [TITLED], layer) }

  const TWICE: seq<Line> := ["x", "", TITLED, "", TITLED]

  lemma TwiceParses()
    ensures Parse(TWICE, PUBLIC) == Lead([Para("x"), Para(TITLED), Para(TITLED)])
            && Parse(["x"], PUBLIC) == Lead([Para("x")])
  {
    hide Parse, ClassOf, UnitsText, UnitOk, Closed, Blank, IsTitle, BodyText, Sound;
    PlainLine("x", 'x');
    TitleLine();
    var x, t := Para("x"), Para(TITLED);
    OneLine(x);
    OneLine(t);
    TwiceText(x, t);
    LeadParses([x]);
    LeadParses([x, t, t]);
  }

  lemma TwiceText(x: Unit, t: Unit)
    requires x == Para("x") && t == Para(TITLED)
    ensures UnitsText([x]) == ["x"] && UnitsText([x, t, t]) == TWICE
  {
    hide UnitsText;
    TwoText(x, t);
    LastText([x, t, t]);
    assert [x, t, t][..2] == [x, t];
  }

  lemma TwiceLeft(names: Names)
    requires names.unit(["x"]) != names.unit([TITLED])
    ensures SplitBody(names, TWICE, ["x"]) == Lead([Para(TITLED), Para(TITLED)])
  {
    hide Parse, SplitBody, Known;
    var x, t := Para("x"), Para(TITLED);
    TwiceParses();
    OneKnown(names, x);
    SecondLeft(names, x, t);
    assert [x, t, t][..2] == [x, t];
    SplitLead(names, TWICE, ["x"], [x, t, t], [t, t]);
  }

  /** Of two such paragraphs, the first is read as the title and the second is left. */
  lemma SecondRead(layer: string)
    ensures var b := Lead([Tee(layer), Tee(layer)]);
            Parse(Render(b), layer).sections == [Section(None, [Tee(layer)])] && !ReadsOn(b)
  {
    hide Parse, Render, ClassOf, Settle;
    var t := Tee(layer);
    var b := Lead([t, t]);
    TitleLine();
    OneLine(t);
    StripTailIs([TITLED], 0);
    assert TailUnit(t) == t;
    assert TailUnits([t, t]) == [t, t];
    assert Tailed(b) == b;
    assert OpenBody(b, layer) by { assert [Section(None, [t, t])][..0] == []; assert Front([t, t]) == [t]; }
    assert FirstUnit(b) == t;
    TitledRest(b, layer);
    assert AfterTitle(b) == [Section(None, [t])];
    SettleTwo(Section(None, [t]), Section(None, [t]));
  }

  lemma LeadUnder(names: Names, units: seq<Unit>, key: SectionKey)
    ensures Gather(names, [Section(None, units)], key) == if key == None then units else []
  {
    GatherOne(names, [], Section(None, units), key);
    assert [] + [Section(None, units)] == [Section(None, units)] && [] + units == units;
  }

  lemma TwiceStored(names: Names, layer: string)
    requires names.unit(["x"]) != names.unit([TITLED])
    ensures Parse(Split(names, TWICE, ["x"]), layer).sections == [Section(None, [Tee(layer)])]
    ensures !ReadsOn(SplitBody(names, TWICE, ["x"]))
  {
    hide Parse, Render, ReadsOn, SplitBody;
    var rest := Lead([Para(TITLED), Para(TITLED)]);
    TwiceLeft(names);
    SecondRead(layer);
    assert Relabel([Para(TITLED), Para(TITLED)], layer) == [Tee(layer), Tee(layer)];
    assert Marked(rest, layer).sections == [Section(None, [Tee(layer), Tee(layer)])];
    RelabeledText(rest, layer);
    LastOfTwo(rest);
    RelabeledReads(rest, layer);
  }

  lemma TwiceUnder(names: Names, layer: string, key: SectionKey)
    requires names.unit(["x"]) != names.unit([TITLED])
    ensures Gather(names, Parse(["x"], PUBLIC).sections, key) == if key == None then [Para("x")] else []
    ensures Gather(names, Parse(TWICE, PUBLIC).sections, key) == if key == None
            then [Para("x"), Para(TITLED), Para(TITLED)] else []
    ensures Gather(names, Parse(Split(names, TWICE, ["x"]), layer).sections, key) == if key == None then [Tee(layer)]
            else []
    ensures Known(names, Parse(["x"], PUBLIC).sections) == {KeyOf(names, Para("x"))}
  {
    hide Parse, Split, Gather, Known;
    TwiceParses();
    TwiceStored(names, layer);
    LeadUnder(names, [Para("x")], key);
    LeadUnder(names, [Para("x"), Para(TITLED), Para(TITLED)], key);
    LeadUnder(names, [Tee(layer)], key);
    OneKnown(names, Para("x"));
  }

  /** A repeated paragraph makes up for the one lost: the stored text does not read on, and yet every key is
      shown. */
  lemma RepeatMakesUp(names: Names, layer: string, key: SectionKey)
    requires layer != PUBLIC && names.unit(["x"]) != names.unit([TITLED])
    ensures !ReadsOn(SplitBody(names, TWICE, ["x"])) && FusedAt(names, TWICE, ["x"], layer, key)
  {
    hide Parse, ReadsOn, Seen, SplitBody, Split, Known, FusedOk, Shows, DistinctKeys, Gather, KeyOf;
    TwiceStored(names, layer);
    TwiceUnder(names, layer, key);
    SeenIs(names, TWICE, ["x"], layer, key);
    NoConnections(key);
    TwiceFused(names, layer, Seen(names, TWICE, ["x"], layer, key), key);
  }

  lemma LastOfTwo(b: Body)
    requires |b.sections| == 1 && b.sections[0].units != []
    ensures LastUnits(b) != []
  {
  }

  lemma NoConnections(key: SectionKey)
    ensures key == None ==> key != Some(CONNECTIONS)
  {
  }

  lemma TwiceFused(names: Names, layer: string, got: seq<Unit>, key: SectionKey)
    requires layer != PUBLIC && names.unit(["x"]) != names.unit([TITLED]) && DistinctKeys(names, got)
    requires var all := (if key == None then [Para("x")] else []) + (if key == None then [Tee(layer)] else []);
             (forall u :: u in all ==> Shows(names, got, u, key == Some(CONNECTIONS)))
               && (forall u :: u in got ==> u in all)
    ensures FusedOk(names, if key == None then [Para("x")]
                    else [], if key == None then [Para("x"), Para(TITLED), Para(TITLED)] else [],
                    {KeyOf(names, Para("x"))}, layer, got, key == Some(CONNECTIONS))
  {
    var all := (if key == None then [Para("x")] else []) + (if key == None then [Tee(layer)] else []);
    if key == None {
      assert all[0] == Para("x") && all[1] == Tee(layer) && Tee(layer) in all;
      ShowsAlike(names, got, Tee(layer), Para(TITLED), false);
      assert [Para("x"), Para(TITLED), Para(TITLED)][1] == Para(TITLED);
    }
  }

  // ---- printing ---------------------------------------------------------------------------------------

  /** A text of a title mark alone is not read back as it was. */
  lemma BareMarkText(layer: string)
    ensures var b := Parse(["# "], layer);
            b.title == "#" && Parse(Render(b), layer) != Body(b.title, Filled(b.sections))
  {
    var line: Line := "# ";
    assert line[0] == '#' && line[1] == ' ' && line[..1] == "#" && !IsSpace('#');
    TrimEndIs(line, 1);
    assert TrimEmpty([line]) == [line] && SkipBlank([line]) == [line];
    RoundTrip([line], layer);
  }

  lemma SpacedLine()
    ensures var line: Line := "y ";
            ClassOf(line) == Continues && !Blank(line) && !IsTitle(line) && TrimEnd(line) == "y"
            && DropSpaces(line) == line
  {
    var line: Line := "y ";
    assert line[0] == 'y' && line[1] == ' ' && line[..1] == "y";
    PlainLine(line, 'y');
    TrimEndIs(line, 1);
    DropSpacesIs(line, 0);
  }

  lemma SpacedText()
    ensures Parse(["y "], PUBLIC) == Lead([Para("y ")]) && BodyText(Lead([Para("y ")])) == ["y "]
  {
    hide Parse, ClassOf, BodyText;
    SpacedLine();
    OneLine(Para("y "));
    TwoText(Para("y "), Para("y "));
    LeadParses([Para("y ")]);
  }

  /** Nor is a line with white space at its end. */
  lemma TrailingSpaceText()
    ensures var b := Parse(["y "], PUBLIC);
            b == Lead([Para("y ")]) && Parse(Render(b), PUBLIC) != Body(b.title, Filled(b.sections))
  {
    hide Parse, ClassOf, BodyText, Filled, Render;
    SpacedText();
    SpacedLine();
    StripTailIs(["y "], 0);
    assert StripHead(["y "]) == ["y "] by { assert ["y "] + ["y "][1..] == ["y "]; }
    RoundTrip(["y "], PUBLIC);
  }
}
