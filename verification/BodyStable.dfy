/** When printing a parsed body is a normal form: printed, parsed and printed again, the text is the same. */
module BodyStable {
  import opened Options
  import opened Text
  import opened PageBodies
  import opened BodyRender
  import opened BodyParse
  import opened BodyRoundTrip
  import opened BodyNormal
  import opened BodyEdges
  import opened BodyReadBack
  import opened BodyLost

  /** The sections of a body that are printed. */
  function Printed(b: Body): Body { Body(b.title, Filled(b.sections)) }

  lemma {:induction false} FilledHeaded(sections: seq<Section>)
    requires forall k :: 0 <= k < |sections| ==> sections[k].heading.None? ==> k == 0
    ensures UnderHeads(Filled(sections)) && |Filled(sections)| <= |sections|
  {
    if sections != [] { FilledHeaded(sections[..|sections| - 1]); }
  }

  lemma FilledSound(sections: seq<Section>, layer: string)
    requires Sound(sections, layer)
    ensures Sound(Filled(sections), layer)
  {
    if sections != [] {
      var n := |sections| - 1;
      FilledWhole(sections[..n], layer);
      if sections[n].units == [] {
        WholeIsSound(Filled(sections[..n]), layer);
      } else {
        assert Filled(sections)[..|Filled(sections[..n])|] == Filled(sections[..n]);
      }
    }
  }

  lemma PrintedIs(text: seq<Line>, layer: string)
    ensures var b := Parse(text, layer);
            var p := Printed(b);
            && UnderHeads(p.sections) && Sound(p.sections, layer) && TitleRead(b.title) && Render(p) == Render(b)
            && (p.sections != [] ==> LastUnits(p) != [])
  {
    hide Parse, Filled, Join, StripHead, StripTail;
    var b := Parse(text, layer);
    ParseSound(text, layer);
    ParsedTitle(text, layer);
    FilledHeaded(b.sections);
    FilledSound(b.sections, layer);
    FilledChunks(b.sections);
  }

  /** The first line of a text that starts with a paragraph, as it is printed. */
  function FirstPrinted(b: Body): Line
    requires Opens(b)
  {
    DropSpaces(b.sections[0].units[0].lines[0])
  }

  /** The first line starts a callout that is not just the first unit. */
  predicate StrayMark(b: Body) { Opens(b) && ClassOf(FirstPrinted(b)) == StartsCallout && !HeadOk(b) }

  /** What is read of a text that starts with a paragraph stands where it is printed: a title alone on its line, a
      heading right above its units, an item not right above another. */
  predicate StartsSteady(b: Body)
    requires Opens(b)
  {
    var first, units := FirstPrinted(b), b.sections[0].units;
    if IsTitle(first) then TrimEnd(first) == first && |units[0].lines| == 1
    else if ClassOf(first) == Heads then TrimEnd(first) == first && |units[0].lines| > 1
    else ClassOf(first) == StartsItem ==> !(|units| > 1 && units[1].kind == Item)
  }

  /** A body with its end stripped, as the parser leaves one. */
  predicate Ended(b: Body, layer: string) {
    && b.sections != [] && UnderHeads(b.sections) && Sound(b.sections, layer)
    && Opens(b) && UnitOk(b.sections[0].units[0], layer)
  }

  // ---- the first line of what is printed again --------------------------------------------------------

  /** A text with a title has an empty line after it. */
  lemma TitleStands(b: Body)
    requires b.title != "" && TitleRead(b.title)
    ensures var r := Render(b); r[0] == b.title && |r| > 1 && r[1] == ""
  {
    hide StripTail, TrimEnd, Join, Chunks;
    TextOf(b);
    var text := BodyText(b);
    MarkAhead(b.title);
    NoSpaceAhead(text);
    var m := StripTailKeeps(text);
    assert m > 0 ==> text[1] == "" && !Blank(text[m]);
  }

  lemma MarkAhead(title: Line)
    requires title != "" && TitleRead(title)
    ensures title[0] == '#' && !Blank(title) && !IsSpace(title[0]) && TrimEnd(title) == title
  {
    assert title[0] == '#';
    BlankEdges(title);
    var n := TrimEndKeeps(title);
  }

  /** The lines after the first of a text that starts with a heading. */
  lemma HeadedText(b: Body, layer: string)
    requires b.title == "" && b.sections != [] && UnderHeads(b.sections) && Sound(b.sections, layer)
             && b.sections[0].heading.Some?
    ensures var r := BodyText(b);
            && |r| > 1 && r[0] == b.sections[0].heading.value && !Blank(r[0]) && TrimEnd(r[0]) == r[0]
            && r[0] != [] && !IsSpace(r[0][0]) && r[1] != ""
  {
    hide Join, Chunks, UnitsText, ClassOf, TrimEnd, MoreSections, Runs, IsCallout, AllClosed;
    var s := b.sections[0];
    TextOf(b);
    assert b.sections == [s] + b.sections[1..];
    ChunksFirst(s, b.sections[1..]);
    SectionThenRest(SectionText(s), b.sections[1..]);
    SoundHeading(b.sections, 0, layer);
    assert UnitOk(s.units[0], layer);
    UnitFirst(s.units[0], layer);
    FirstOfUnits(s.units);
    HeadingStart(s.heading.value);
  }

  lemma HeadedPrints(b: Body, layer: string)
    requires b.title == "" && b.sections != [] && UnderHeads(b.sections) && Sound(b.sections, layer)
             && b.sections[0].heading.Some?
    ensures var r := Render(b); |r| > 1 && TrimEnd(r[0]) == r[0] && r[0] != "" && r[1] != ""
  {
    hide Render, BodyText, StripHead, Tailed, UnderHeads, Sound, TrimEnd, Blank;
    TailedHeaded(b);
    PrintedText(b, layer);
    TailedSound(b, layer);
    TailedHeading(b);
    HeadedText(Tailed(b), layer);
    NoSpaceAhead(BodyText(Tailed(b)));
  }

  /** Read with headings only, a text is printed again with a heading right above its units. */
  lemma HeadingStands(text: seq<Line>, layer: string)
    requires var b := Parse(text, layer);
             b.title == "" && forall k :: 0 <= k < |b.sections| ==> b.sections[k].heading.Some?
    ensures var r := Render(Parse(text, layer));
            r[0] == "" || (|r| > 1 && TrimEnd(r[0]) == r[0] && r[1] != "")
  {
    hide Parse, Render, UnderHeads, Sound, TrimEnd, TitleRead;
    var b := Parse(text, layer);
    var p := Printed(b);
    PrintedIs(text, layer);
    FilledFrom(b.sections);
    if p.sections == [] {
      EmptyPrints(p);
    } else {
      assert p.sections[0] in Filled(b.sections);
      HeadedPrints(p, layer);
    }
  }

  lemma EmptyPrints(b: Body)
    requires b.title == "" && b.sections == []
    ensures Render(b)[0] == ""
  {
    TextOf(b);
    assert Chunks([]) == [] && Join([]) == [];
  }

  lemma {:induction false} FilledFrom(sections: seq<Section>)
    ensures forall s :: s in Filled(sections) ==> s in sections
  {
    if sections != [] { FilledFrom(sections[..|sections| - 1]); }
  }

  lemma TailedHeading(b: Body)
    requires LastUnits(b) != []
    ensures Tailed(b).title == b.title && Tailed(b).sections != []
    ensures Tailed(b).sections[0].heading == b.sections[0].heading
  {
  }

  // ---- a paragraph, an item or a callout --------------------------------------------------------------

  /** Joined again, the units are a line closer only where an item comes right before another. */
  lemma ParedText(b: Body, layer: string)
    requires Ended(b, layer)
    ensures var units := b.sections[0].units;
            if |units| > 1 && Gap(HeadUnit(units[0]), units[1]) == [] then |BodyText(Pared(b))| < |BodyText(Parted(b))|
            else BodyText(Pared(b)) == BodyText(Parted(b))
  {
    hide UnitsText, Chunks, Join, SectionText, HeadUnit, Gap, Sound, UnderHeads, UnitOk;
    var units, rest := b.sections[0].units, b.sections[1..];
    var first, more := HeadUnit(units[0]), units[1..];
    TextOf(Pared(b));
    TextOf(Parted(b));
    PartedText(first, more, rest);
    if more == [] || Gap(first, more[0]) == [""] {
      OpenText(first, more, rest);
    } else {
      CloserText(first, more, rest);
    }
    GapIs(first, units[if more == [] then 0 else 1]);
  }

  lemma GapIs(a: Unit, b: Unit)
    ensures Gap(a, b) == [] || Gap(a, b) == [""]
  {
  }

  lemma CloserText(u: Unit, more: seq<Unit>, rest: seq<Section>)
    requires more != [] && Gap(u, more[0]) != [""]
    ensures |Join(Chunks([Section(None, [u] + more)] + rest))| < |u.lines + AfterFirst(more, rest)|
  {
    hide UnitsText, Chunks, Join, MoreSections, SectionText;
    ChunksFirst(Section(None, [u] + more), rest);
    HeadlessText([u] + more);
    UnitsTextFirst(u, more);
    SectionThenRest(UnitsText([u] + more), rest);
  }

  lemma RenderShrinks(b: Body)
    requires BodyText(b) != []
    ensures |Render(b)| <= |BodyText(b)| + 1
  {
    HeadShrinks(BodyText(b));
    TailShrinks(StripHead(BodyText(b)));
  }

  lemma StrippedRender(b: Body)
    requires BodyText(b) != [] && Stripped(BodyText(b))
    ensures Render(b) == BodyText(b) + [""]
  {
  }

  lemma ParedPrints(b: Body, layer: string)
    requires Ended(b, layer) && HeadOk(b) && Stripped(BodyText(Parted(b))) && BodyText(Parted(b)) != []
    ensures Render(Pared(b)) == BodyText(Parted(b)) + [""] <==> StartsSteady(b)
  {
    hide BodyText, Stripped, Render, UnitsText, Parted, Pared, Sound, UnderHeads, ClassOf;
    ParedText(b, layer);
    if BodyText(Pared(b)) == BodyText(Parted(b)) {
      StrippedRender(Pared(b));
    } else if BodyText(Pared(b)) != [] {
      RenderShrinks(Pared(b));
    } else {
      NothingPrints(Pared(b));
    }
  }

  lemma NothingPrints(b: Body)
    requires BodyText(b) == []
    ensures Render(b) == [""]
  {
  }

  lemma OpenIsEnded(b: Body, layer: string)
    requires OpenBody(b, layer)
    ensures Ended(Tailed(b), layer)
  {
    hide Tailed, UnitOk;
    TailedHeaded(b);
    TailedSound(b, layer);
    SoundHeading(Tailed(b).sections, 0, layer);
  }

  lemma UnitSteady(b: Body, layer: string)
    requires OpenBody(b, layer) && HeadOk(Tailed(b))
    ensures Render(Parse(Render(b), layer)) == Render(b) <==> StartsSteady(Tailed(b))
  {
    hide BodyText, Stripped, Render, Parse, Parted, Sound, UnderHeads, Tailed, HeadOk, StartsSteady, Ended;
    var t := Tailed(b);
    OpenIsEnded(b, layer);
    OpenReadBack(b, layer);
    PrintedStart(b, layer);
    ParedPrints(t, layer);
    assert Body(b.title, Pared(t).sections) == Pared(t);
  }

  // ---- a title or a heading ---------------------------------------------------------------------------

  /** A printable body as the split leaves it is read back as it is. */
  lemma SelfRead(b: Body, layer: string)
    requires Sound(b.sections, layer) && UnderHeads(b.sections) && TitleOk(b.title) && Printable(b)
    ensures Parse(Render(b), layer) == b
  {
    hide Sound, Parse, Render, Printable, Settle, Filled;
    PrintsBack(b, layer);
    SettleFills(b.sections);
    FilledAll(b.sections);
  }

  lemma NoFirstFence(u: Unit, layer: string, k: nat)
    requires UnitOk(u, layer) && u.kind == Paragraph && k < |u.lines|
    requires var first := DropSpaces(u.lines[0]); first != [] && first[0] == '#'
    ensures !IsFence(u.lines[0]) && u.lines[k] != ""
  {
    hide IsFence, ClassOf;
    var first := DropSpaces(u.lines[0]);
    FenceEdges(u.lines[0]);
    if IsFence(first) { FenceStarts(first); }
    PlainLines(u.lines, k);
    var none: Line := [];
    assert Blank(none);
  }

  /** The title alone, and all behind it. */
  function LoneTitle(b: Body): Body
    requires Opens(b)
  {
    Body(FirstPrinted(b), Behind(b))
  }

  lemma LoneTitleIs(b: Body, layer: string)
    requires Ended(b, layer) && |b.sections[0].units[0].lines| == 1 && IsTitle(FirstPrinted(b))
             && Stripped(BodyText(Parted(b)))
    requires TrimEnd(FirstPrinted(b)) == FirstPrinted(b)
    ensures BodyText(LoneTitle(b)) == BodyText(Parted(b)) && Parse(Render(LoneTitle(b)), layer) == LoneTitle(b)
  {
    hide Sound, UnitOk, Parse, Render, BodyText, Stripped, HeadUnit;
    BehindSound(b, layer);
    LoneTitleText(b);
    assert FirstPrinted(b) != "#";
    SelfRead(LoneTitle(b), layer);
  }

  lemma LoneTitleText(b: Body)
    requires Opens(b) && |b.sections[0].units[0].lines| == 1 && IsTitle(FirstPrinted(b))
    ensures BodyText(LoneTitle(b)) == BodyText(Parted(b))
  {
    hide Chunks, Join, BodyText, MoreSections, Behind, ClassOf;
    var first := HeadUnit(b.sections[0].units[0]);
    TextOf(Parted(b));
    assert Parted(b).sections == [Section(None, [first])] + Behind(b) by { PartedBehind(b); }
    OneThenRest(first, Behind(b));
    TitleGap(LoneTitle(b));
    assert first.lines == [FirstPrinted(b)];
  }

  lemma PartedBehind(b: Body)
    requires Opens(b)
    ensures Parted(b).sections == [Section(None, [HeadUnit(b.sections[0].units[0])])] + Behind(b)
  {
  }

  lemma TitleGap(b: Body)
    requires b.title != ""
    ensures BodyText(b) == [b.title] + MoreSections(b.sections)
  {
    hide Join, Chunks;
    TextOf(b);
  }

  lemma TitleSteady(b: Body, layer: string)
    requires OpenBody(b, layer) && IsTitle(FirstUnit(b).lines[0])
    ensures Render(Parse(Render(b), layer)) == Render(b) <==> StartsSteady(Tailed(b))
  {
    hide BodyText, Stripped, Render, Parse, Parted, Sound, UnderHeads, Tailed, ParseFrom, Keep, UnitOk, ClassOf;
    var t, text := Tailed(b), PrintedLines(b);
    var u := t.sections[0].units[0];
    OpenIsEnded(b, layer);
    PrintedStart(b, layer);
    ParsePlain(text, layer);
    TitleIsRead(text, layer);
    ParsedTitle(Render(b), layer);
    TitleStands(Parse(Render(b), layer));
    assert text[0] == FirstPrinted(t);
    if TrimEnd(text[0]) == text[0] {
      if |u.lines| > 1 {
        NoFirstFence(u, layer, 1);
        assert text[1] == u.lines[1];
      } else {
        LoneTitleIs(t, layer);
        StrippedRender(LoneTitle(t));
      }
    }
  }

  lemma {:induction false} LaterLines(lines: seq<Line>)
    requires Runs(Paragraph, lines) && !IsFence(lines[0]) && |lines| > 1
    ensures Runs(Paragraph, lines[1..]) && InFence(lines[1..]) == InFence(lines)
  {
    hide ClassOf, IsFence;
    var n := |lines| - 1;
    assert InFence(lines[..1]) == false by { assert lines[..1][..0] == []; }
    if n == 1 {
      assert lines[..1] == [lines[0]] && lines[1..] == [lines[1]] && lines[1..][..0] == [];
    } else {
      LaterLines(lines[..n]);
      assert lines[1..][..n - 1] == lines[..n][1..];
    }
  }

  /** The first line as a heading, right above all behind it. */
  function AsHeading(b: Body): Body
    requires Opens(b) && |b.sections[0].units[0].lines| > 1
  {
    var units := b.sections[0].units;
    var first := units[0].(lines := units[0].lines[1..]);
    b.(sections := [Section(Some(FirstPrinted(b)), [first] + units[1..])] + b.sections[1..])
  }

  lemma HeadedSection(b: Body, layer: string)
    requires Ended(b, layer) && |b.sections[0].units[0].lines| > 1 && ClassOf(FirstPrinted(b)) == Heads
    requires TrimEnd(FirstPrinted(b)) == FirstPrinted(b)
    ensures Sound(AsHeading(b).sections, layer)
  {
    hide ClassOf, IsFence, TrimEnd, Runs, DropSpaces, Sound;
    var units, rest := b.sections[0].units, b.sections[1..];
    HeadingStart(FirstPrinted(b));
    NoFirstFence(units[0], layer, 0);
    LaterLines(units[0].lines);
    RestOfFirst(b, layer);
    SoundTail(b.sections, layer);
    var s := AsHeading(b).sections[0];
    assert UnitOk(s.units[0], layer);
    assert Closed(s.units[0]) == Closed(units[0]);
    if !OneUnit(b) { NotLastClosed(b, layer); }
    assert SectionOk(s, layer);
    if rest == [] { LoneSound(s, Section(None, units[1..]), layer); } else { SoundBefore(s, rest, layer); }
  }

  lemma LoneSound(s: Section, t: Section, layer: string)
    requires SectionOk(s, layer) && s.units != [] && t.units == s.units[1..] && Sound([t], layer)
    requires |s.units| > 1 ==> Closed(s.units[0])
    ensures Sound([s] + [], layer)
  {
    hide SectionOk, Closed;
    assert [s] + [] == [s] && [s][..0] == [];
    forall k | 0 <= k < |Front(s.units)| ensures Closed(Front(s.units)[k]) {
      if k > 0 { assert Front(s.units)[k] == Front(t.units)[k - 1]; }
    }
  }

  lemma HeadingIs(b: Body, layer: string)
    requires Ended(b, layer) && |b.sections[0].units[0].lines| > 1 && ClassOf(FirstPrinted(b)) == Heads
    requires TrimEnd(FirstPrinted(b)) == FirstPrinted(b) && Stripped(BodyText(Parted(b)))
    ensures BodyText(AsHeading(b)) == BodyText(Parted(b)) && Parse(Render(AsHeading(b)), layer) == AsHeading(b)
  {
    hide UnitsText, Chunks, Join, Sound, UnitOk, Parse, Render, BodyText, Stripped, ClassOf, MoreSections, DropSpaces,
         TrimEnd;
    var units, rest := b.sections[0].units, b.sections[1..];
    var s := AsHeading(b).sections[0];
    HeadedSection(b, layer);
    TextOf(AsHeading(b));
    TextOf(Parted(b));
    PartedText(HeadUnit(units[0]), units[1..], rest);
    ChunksFirst(s, rest);
    UnitsTextFirst(s.units[0], units[1..]);
    SectionThenRest(SectionText(s), rest);
    if units[1..] != [] { assert Gap(s.units[0], units[1]) == [""]; }
    HeadedLines(FirstPrinted(b), units[0].lines[1..], MoreUnits(units[1..]), MoreSections(rest));
    HeadedText(AsHeading(b), layer);
    HeadingIsNoTitle(FirstPrinted(b));
    SelfRead(AsHeading(b), layer);
  }

  lemma HeadedLines(first: Line, lines: seq<Line>, units: seq<Line>, sections: seq<Line>)
    ensures [first] + (lines + units) + sections == [first] + lines + (units + sections)
  {
  }

  lemma HeadingSteady(b: Body, layer: string)
    requires OpenBody(b, layer) && !IsTitle(FirstUnit(b).lines[0]) && ClassOf(FirstUnit(b).lines[0]) == Heads
    ensures Render(Parse(Render(b), layer)) == Render(b) <==> StartsSteady(Tailed(b))
  {
    hide BodyText, Stripped, Render, Parse, Sound, UnderHeads, Tailed, UnitOk, ClassOf, AfterFirst;
    var t, text := Tailed(b), PrintedLines(b);
    var u := t.sections[0].units[0];
    OpenIsEnded(b, layer);
    PrintedStart(b, layer);
    HeadingLost(b, layer);
    FirstRead(b, layer);
    HeadingStands(Render(b), layer);
    assert text[0] == FirstPrinted(t);
    if TrimEnd(text[0]) == text[0] {
      if |u.lines| > 1 {
        HeadingIs(t, layer);
        StrippedRender(AsHeading(t));
      } else {
        AloneThenEmpty(t, layer);
      }
    }
  }

  /** A line alone at the start of a text has an empty line after it, or none. */
  lemma AloneThenEmpty(b: Body, layer: string)
    requires Ended(b, layer) && |b.sections[0].units[0].lines| == 1
    ensures var r := BodyText(Parted(b)); |r| > 1 ==> r[1] == ""
  {
    hide UnitsText, Chunks, Join, Sound, UnderHeads, UnitOk, ClassOf;
    var units := b.sections[0].units;
    TextOf(Parted(b));
    PartedText(HeadUnit(units[0]), units[1..], b.sections[1..]);
  }

  // ---- every body -------------------------------------------------------------------------------------

  lemma PlainSteady(b: Body, layer: string)
    requires b.sections != [] && UnderHeads(b.sections) && Sound(b.sections, layer) && TitleOk(b.title)
    requires LastUnits(b) != [] && !Opens(Tailed(b))
    ensures Render(Parse(Render(b), layer)) == Render(b)
  {
    hide BodyText, Stripped, Render, Parse, Sound, Tailed;
    var t := Tailed(b);
    PlainReadBack(b, layer);
    PrintedText(b, layer);
    TailedHeaded(b);
    TailedSound(b, layer);
    TailedTitle(b);
    PlainStart(t, layer);
    NoSpaceAhead(BodyText(t));
    StrippedRender(t);
    assert Body(b.title, t.sections) == t;
  }

  /** A title alone is read back. */
  lemma TitleReads(b: Body, layer: string)
    requires b.sections == [] && TitleOk(b.title)
    ensures Parse(Render(b), layer) == Body(b.title, [])
  {
    hide Parse, Render;
    TextOf(b);
    assert Chunks([]) == [] && Join([]) == [];
    if b.title != "" {
      assert b.title[0] == '#' && !IsSpace('#');
      DropSpacesIs(b.title, 0);
      StrippedIs([b.title]);
    } else {
      assert Stripped([]);
    }
    RenderParses(b, layer);
    assert Settle([]) == [];
  }

  // ---- a title that is the mark alone -----------------------------------------------------------------

  function MarkUnit(layer: string): Unit { Unit(Paragraph, ["#"], layer) }

  /** The mark as the paragraph it is read back as. */
  function Unmarked(b: Body, layer: string): Body {
    if b.sections != [] && b.sections[0].heading.None?
    then Body("", [Section(None, [MarkUnit(layer)] + b.sections[0].units)] + b.sections[1..])
    else Body("", [Section(None, [MarkUnit(layer)])] + b.sections)
  }

  lemma UnmarkedText(b: Body, layer: string)
    requires b.title == "#" && UnderHeads(b.sections)
    ensures BodyText(Unmarked(b, layer)) == BodyText(b)
  {
    hide UnitsText, Chunks, Join, SectionText, MoreSections, BodyText;
    TitleGap(b);
    TextOf(Unmarked(b, layer));
    if b.sections != [] && b.sections[0].heading.None? {
      assert b.sections == [Section(None, b.sections[0].units)] + b.sections[1..];
      MarkAndLead(b.sections[0].units, b.sections[1..], layer);
    } else {
      OneThenRest(MarkUnit(layer), b.sections);
    }
  }

  lemma MarkAndLead(units: seq<Unit>, rest: seq<Section>, layer: string)
    requires units != []
    ensures Join(Chunks([Section(None, [MarkUnit(layer)] + units)] + rest)) ==
            ["#"] + MoreSections([Section(None, units)] + rest)
  {
    hide UnitsText, Chunks, Join, SectionText, MoreSections;
    OpenText(MarkUnit(layer), units, rest);
    LeadThenRest(units, rest);
    Regroup([""], UnitsText(units), MoreSections(rest));
  }

  /** What comes after an empty line: a lead's units and the sections after it. */
  lemma LeadThenRest(units: seq<Unit>, rest: seq<Section>)
    requires units != []
    ensures MoreSections([Section(None, units)] + rest) == [""] + (UnitsText(units) + MoreSections(rest))
  {
    hide UnitsText, Chunks, Join, SectionText;
    ChunksFirst(Section(None, units), rest);
    HeadlessText(units);
    SectionThenRest(UnitsText(units), rest);
  }

  /** A unit alone, and the sections after it. */
  lemma OneThenRest(u: Unit, rest: seq<Section>)
    ensures Join(Chunks([Section(None, [u])] + rest)) == u.lines + MoreSections(rest)
  {
    hide UnitsText, Chunks, Join, SectionText, MoreSections;
    ChunksFirst(Section(None, [u]), rest);
    HeadlessText([u]);
    UnitsTextTwo(u, u);
    SectionThenRest(u.lines, rest);
  }

  lemma MarkUnitOk(layer: string)
    ensures UnitOk(MarkUnit(layer), layer) && Closed(MarkUnit(layer)) && ClassOf("#") == Continues
    ensures DropSpaces("#") == "#" && TailUnit(MarkUnit(layer)) == MarkUnit(layer)
  {
    hide ClassOf, UnitOk, Closed, Blank, TrimEnd, DropSpaces;
    MarkContinues();
    OneLine(MarkUnit(layer));
    MarkStands();
    LastLineKept(["#"]);
  }

  lemma MarkStands()
    ensures var mark: Line := "#"; DropSpaces(mark) == mark && TrimEnd(mark) == mark
  {
    var mark: Line := "#";
    assert mark[0] == '#' && !IsSpace('#');
  }

  lemma UnmarkedSound(b: Body, layer: string)
    requires b.title == "#" && UnderHeads(b.sections) && Sound(b.sections, layer)
    ensures Sound(Unmarked(b, layer).sections, layer)
  {
    hide UnitOk, Closed, ClassOf, Sound;
    MarkUnitOk(layer);
    var mark := Section(None, [MarkUnit(layer)]);
    if b.sections == [] {
      MarkSound(mark, layer);
      assert [mark] + [] == [mark];
    } else if b.sections[0].heading.Some? {
      SoundBefore(mark, b.sections, layer);
    } else {
      var s := Section(None, [MarkUnit(layer)] + b.sections[0].units);
      SoundHeading(b.sections, 0, layer);
      assert b.sections == [b.sections[0]] + b.sections[1..];
      SoundMore(b.sections[0], s, b.sections[1..], layer);
    }
  }

  lemma MarkSound(s: Section, layer: string)
    requires SectionOk(s, layer) && AllClosed(s.units)
    ensures Sound([s], layer)
  {
    assert [s][..0] == [];
  }

  /** A closed unit before a first section's units. */
  lemma SoundMore(t: Section, s: Section, rest: seq<Section>, layer: string)
    requires Sound([t] + rest, layer) && SectionOk(s, layer) && s.units != [] && s.units[1..] == t.units
             && Closed(s.units[0])
    ensures Sound([s] + rest, layer)
  {
    hide UnitOk, Closed;
    if rest == [] {
      assert [t] + rest == [t] && [t][..0] == [];
      LoneSound(s, t, layer);
    } else {
      SoundTail([t] + rest, layer);
      assert ([t] + rest)[..|rest|][0] == t && ([t] + rest)[1..] == rest;
      forall k | 0 <= k < |s.units| ensures Closed(s.units[k]) { if k > 0 { assert s.units[k] == t.units[k - 1]; } }
      SoundBefore(s, rest, layer);
    }
  }

  lemma MarkTailed(b: Body, layer: string)
    requires b.title == "#" && UnderHeads(b.sections)
    ensures var u := Unmarked(b, layer);
            && UnderHeads(u.sections) && LastUnits(u) != [] && Opens(Tailed(u))
            && Tailed(u).sections[0].units[0] == MarkUnit(layer)
  {
    hide TailUnit, ClassOf;
    MarkUnitOk(layer);
  }

  lemma MarkSteady(b: Body, layer: string)
    requires b.title == "#" && UnderHeads(b.sections) && Sound(b.sections, layer)
    ensures Render(Parse(Render(b), layer)) == Render(b)
  {
    hide Sound, UnderHeads, ClassOf, Tailed, Parse, Join, StripTail, StripHead;
    var u := Unmarked(b, layer);
    UnmarkedText(b, layer);
    UnmarkedSound(b, layer);
    MarkTailed(b, layer);
    MarkUnitOk(layer);
    assert Render(u) == Render(b);
    UnitSteady(u, layer);
  }

  // ---- the theorem ------------------------------------------------------------------------------------

  /** What is printed starts a callout that is not just the first unit. */
  predicate Stray(b: Body) { LastUnits(Printed(b)) != [] && StrayMark(Tailed(Printed(b))) }

  /** What is printed starts with no paragraph, or with one that stands where it is printed. */
  predicate Steady(b: Body) {
    LastUnits(Printed(b)) != [] && Opens(Tailed(Printed(b))) ==> StartsSteady(Tailed(Printed(b)))
  }

  /** Printing is a normal form, whatever the text's edges and title: printed, parsed and printed again, a parsed
      body's text is the same exactly when its start stands where it is printed. */
  lemma NormalForm(text: seq<Line>, layer: string)
    requires !Stray(Parse(text, layer))
    ensures var b := Parse(text, layer); Render(Parse(Render(b), layer)) == Render(b) <==> Steady(b)
  {
    hide Sound, UnderHeads, ClassOf, Tailed, Parse, Render, StartsSteady, HeadOk, Filled;
    var b := Parse(text, layer);
    var p := Printed(b);
    PrintedIs(text, layer);
    if b.title == "#" {
      MarkSteady(p, layer);
      if LastUnits(p) != [] { TailedTitle(p); }
    } else if p.sections == [] {
      TitleReads(p, layer);
    } else if !Opens(Tailed(p)) {
      PlainSteady(p, layer);
    } else {
      OpenSteady(p, layer);
    }
  }

  lemma OpenSteady(b: Body, layer: string)
    requires b.sections != [] && UnderHeads(b.sections) && Sound(b.sections, layer) && LastUnits(b) != []
    requires Opens(Tailed(b)) && !StrayMark(Tailed(b))
    ensures Render(Parse(Render(b), layer)) == Render(b) <==> StartsSteady(Tailed(b))
  {
    hide Sound, UnderHeads, Tailed, Parse, Render, StartsSteady;
    assert b.title == "" by { TailedTitle(b); }
    var first := FirstPrinted(Tailed(b));
    if IsTitle(first) {
      TitleSteady(b, layer);
    } else if ClassOf(first) == Heads {
      HeadingSteady(b, layer);
    } else {
      UnitSteady(b, layer);
    }
  }
}
