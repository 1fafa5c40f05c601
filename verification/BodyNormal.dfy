/** Exactly which parsed bodies survive printing. */
module BodyNormal {
  import opened Options
  import opened Text
  import opened PageBodies
  import opened BodyRender
  import opened BodyParse
  import opened BodyRoundTrip
  import opened BodyWeight

  // ---- the first line of a text without a title --------------------------------------------------

  /** The first line read opens the lead's first unit, unless it is a heading. */
  predicate FirstKept(s: State, first: Line) {
    && s.sections != []
    && var lead := s.sections[0].units;
       if lead != [] then lead[0].lines != [] && lead[0].lines[0] == first
       else |s.sections| > 1 || (s.current != [] && s.current[0] == first)
  }

  lemma FirstEaten(line: Line, layer: string)
    requires !Blank(line)
    ensures FirstKept(Eat(Clean(START), line, layer), line)
  {
  }

  lemma FlushKeepsFirst(s: State, first: Line, layer: string)
    requires Inv(s, layer) && s.mode == Open && FirstKept(s, first)
    ensures FirstKept(Flush(s, layer), first)
  {
    FlushOpen(s, layer);
  }

  lemma TakeKeepsFirst(s: State, line: Line, first: Line, mode: Mode)
    requires FirstKept(s, first)
    ensures FirstKept(s.(current := s.current + [line], mode := mode), first)
  {
  }

  lemma FlushedKeepsFirst(s: State, r: State, first: Line)
    requires FirstKept(s, first) && s.current == [] && s.sections <= r.sections
    ensures FirstKept(r, first)
  {
    assert r.sections[0] == s.sections[0];
  }

  lemma EatExtends(s: State, line: Line, layer: string)
    requires s.sections != [] && s.mode == Open
    ensures var r := Eat(s, line, layer);
            (r.sections == s.sections && r.current == s.current + [line]) || Flush(s, layer).sections <= r.sections
  {
    hide ClassOf;
  }

  lemma EatOpenKeepsFirst(s: State, line: Line, first: Line, layer: string)
    requires Inv(s, layer) && s.mode == Open && FirstKept(s, first)
    ensures FirstKept(Eat(s, line, layer), first)
  {
    var r := Eat(s, line, layer);
    FlushKeepsFirst(s, first, layer);
    EatExtends(s, line, layer);
    if r.current == s.current + [line] && r.sections == s.sections {
      TakeKeepsFirst(s, line, first, r.mode);
    } else {
      FlushedKeepsFirst(Flush(s, layer), r, first);
    }
  }

  lemma EatKeepsFirst(s: State, line: Line, first: Line, layer: string)
    requires Inv(s, layer) && FirstKept(s, first)
    ensures FirstKept(Eat(s, line, layer), first)
  {
    if s.mode == Open { EatOpenKeepsFirst(s, line, first, layer); }
  }

  lemma {:induction false} FirstOfAll(lines: seq<Line>, layer: string)
    requires lines != [] && !Blank(lines[0])
    ensures FirstKept(EatAll(Clean(START), lines, layer), lines[0])
  {
    var n := |lines| - 1;
    if n == 0 {
      assert lines == [lines[0]];
      EatOne(Clean(START), lines[0], layer);
      FirstEaten(lines[0], layer);
    } else {
      FirstOfAll(lines[..n], layer);
      EatAllKeeps(lines[..n], layer);
      EatKeepsFirst(EatAll(Clean(START), lines[..n], layer), lines[n], lines[0], layer);
    }
  }

  lemma LeadOfFinish(s: State, first: Line, layer: string)
    requires Inv(s, layer) && FirstKept(s, first) && (s.current != [] ==> s.current[|s.current| - 1] != [])
    ensures var lead := Finish(s, layer)[0].units; lead != [] ==> lead[0].lines != [] && lead[0].lines[0] == first
  {
    FinishSound(s, layer);
  }

  lemma LeadOfParse(lines: seq<Line>, layer: string)
    requires lines != [] && !Blank(lines[0]) && lines[|lines| - 1] != []
    ensures var lead := ParseFrom(lines, layer)[0].units;
            lead != [] ==> lead[0].lines != [] && lead[0].lines[0] == lines[0]
  {
    FirstOfAll(lines, layer);
    EatAllKeeps(lines, layer);
    EndsWithLast(lines, layer);
    LeadOfFinish(EatAll(Clean(START), lines, layer), lines[0], layer);
  }

  lemma EndsWithLast(lines: seq<Line>, layer: string)
    requires lines != []
    ensures var s := EatAll(Clean(START), lines, layer);
            s.current != [] ==> s.current[|s.current| - 1] == lines[|lines| - 1]
  {
    var n := |lines| - 1;
    EatAllKeeps(lines[..n], layer);
    LastLine(EatAll(Clean(START), lines[..n], layer), lines[n], layer);
  }

  lemma {:induction false} LeadOnly(lines: seq<Line>, layer: string)
    requires lines == []
    ensures Keep(ParseFrom(lines, layer)) == []
  {
    assert EatAll(Clean(START), [], layer) == Clean(START);
    KeepStart([]);
    assert START + [] == START;
  }

  /** The lead of a body without a title does not open with a title line. */
  lemma NoStrayTitle(text: seq<Line>, layer: string)
    ensures var b := Parse(text, layer);
            b.title == "" && b.sections != [] && b.sections[0].heading.None? ==>
              b.sections[0].units != [] && b.sections[0].units[0].lines != []
                && !IsTitle(b.sections[0].units[0].lines[0])
  {
    var lines := SkipBlank(TrimEmpty(text));
    TrimLast(text);
    SkipLast(TrimEmpty(text));
    if lines == [] {
      LeadOnly(lines, layer);
    } else if IsTitle(lines[0]) {
      var n := TrimEndKeeps(lines[0]);
      assert lines[0][0] == '#';
      assert TrimEnd(lines[0]) != "";
    } else {
      LeadOfParse(lines, layer);
      ParseFromSound(lines, layer);
      KeepOf(ParseFrom(lines, layer));
    }
  }

  // ---- the first and last lines of a printed body --------------------------------------------------

  lemma {:induction false} FirstOfUnits(units: seq<Unit>)
    requires units != [] && units[0].lines != []
    ensures UnitsText(units) != [] && UnitsText(units)[0] == units[0].lines[0]
  {
    if |units| > 1 { FirstOfUnits(units[..|units| - 1]); }
  }

  lemma UnitFirst(u: Unit, layer: string)
    requires UnitOk(u, layer)
    ensures u.lines[0] != []
  {
    if u.kind != Callout { FirstNotBlank(u.kind, u.lines); }
  }

  lemma SectionEnds(s: Section, layer: string)
    requires SectionOk(s, layer) && s.units != []
    ensures s.units[0].lines != []
    ensures var text := SectionText(s);
            && text != [] && text[|text| - 1] != [] && text[0] != []
            && text[0] == match s.heading case Some(h) => h case None => s.units[0].lines[0]
  {
    LastOfUnits(s.units, layer);
    assert UnitOk(s.units[0], layer);
    UnitFirst(s.units[0], layer);
    FirstOfUnits(s.units);
  }

  lemma EndsJoin(whole: seq<Line>, first: seq<Line>, last: seq<Line>)
    requires whole == first + [""] + last && first != [] && last != []
    ensures whole != [] && whole[0] == first[0] && whole[|whole| - 1] == last[|last| - 1]
  {
  }

  /** The first printed line: a heading, or the first line of the units before any. */
  lemma {:induction false} FirstOfSections(sections: seq<Section>, layer: string) returns (k: nat)
    requires Sound(sections, layer) && Chunks(sections) != []
    ensures k < |sections| && SectionOk(sections[k], layer) && sections[k].units != []
            && sections[k].units[0].lines != []
    ensures var text := Join(Chunks(sections));
            text != [] && text[|text| - 1] != [] && text[0] != [] && text[0] == SectionText(sections[k])[0]
  {
    hide Join, SectionText, SectionOk, AllClosed;
    var n := |sections| - 1;
    var last := sections[n];
    ChunksOneMore(sections);
    if last.units != [] { SectionEnds(last, layer); }
    if Chunks(sections[..n]) == [] {
      k := n;
    } else {
      WholeIsSound(sections[..n], layer);
      k := FirstOfSections(sections[..n], layer);
      assert sections[k] == sections[..n][k];
      if last.units != [] { EndsJoin(Join(Chunks(sections)), Join(Chunks(sections[..n])), SectionText(last)); }
    }
  }

  lemma HeadingIsNoTitle(line: Line)
    requires ClassOf(line) == Heads
    ensures !IsTitle(line)
  {
    assert Run(line, {'#'}) == 1 + Run(line[1..], {'#'});
    assert line[1] == line[1..][0];
  }

  /** A body's printed text never starts or ends with an empty line. */
  lemma TextEnds(b: Body, layer: string)
    requires Sound(b.sections, layer) && BodyText(b) != []
    ensures BodyText(b)[0] != [] && BodyText(b)[|BodyText(b)| - 1] != []
  {
    TextOf(b);
    if Chunks(b.sections) != [] { var k := FirstOfSections(b.sections, layer); }
  }

  lemma UntitledText(text: seq<Line>, layer: string)
    ensures var b := Parse(text, layer); b.title == "" && BodyText(b) != [] ==> !IsTitle(BodyText(b)[0])
  {
    var b := Parse(text, layer);
    ParseSound(text, layer);
    NoStrayTitle(text, layer);
    TextOf(b);
    if b.title == "" && BodyText(b) != [] {
      var k := FirstOfSections(b.sections, layer);
      SectionEnds(b.sections[k], layer);
      if b.sections[k].heading.Some? {
        HeadingIsNoTitle(b.sections[k].heading.value);
      }
    }
  }

  lemma SoundHeading(sections: seq<Section>, k: nat, layer: string)
    requires Sound(sections, layer) && k < |sections|
    ensures SectionOk(sections[k], layer)
  {
    var n := |sections| - 1;
    if k < n { assert sections[..n][k] == sections[k]; }
  }

  // ---- the theorem --------------------------------------------------------------------------------

  /** The sections that have units. */
  function Filled(sections: seq<Section>): seq<Section> {
    if sections == [] then []
    else
      var n := |sections| - 1;
      Filled(sections[..n]) + if sections[n].units == [] then [] else [sections[n]]
  }

  /** Where units without a heading come first, settling only drops the sections without units. */
  lemma {:induction false} SettleFills(sections: seq<Section>)
    requires forall k :: 0 <= k < |sections| ==> sections[k].heading.None? ==> k == 0
    ensures Settle(sections) == Filled(sections)
  {
    if sections != [] {
      var n := |sections| - 1;
      SettleFills(sections[..n]);
      if n == 0 { assert Settle(sections[..0]) == []; }
    }
  }

  lemma {:induction false} TrimIsTrimmed(t: string)
    ensures TrimEnd(TrimEnd(t)) == TrimEnd(t)
  {
    var n := TrimEndKeeps(t);
  }

  /** A parsed title is none, the mark alone, or a title line. */
  lemma ParsedTitle(text: seq<Line>, layer: string)
    ensures var title := Parse(text, layer).title; title == "#" || TitleOk(title)
  {
    var lines := SkipBlank(TrimEmpty(text));
    if lines != [] && IsTitle(lines[0]) {
      var n := TrimEndKeeps(lines[0]);
      TrimIsTrimmed(lines[0]);
      assert lines[0][0] == '#' && lines[0][1] == ' ';
      if n == 1 { assert lines[0][..1] == "#"; } else { assert "# " <= lines[0][..n]; }
    }
  }

  lemma {:induction false} StripTailFirst(lines: seq<Line>)
    requires lines != [] && !Blank(lines[0]) && TrimEnd(lines[0]) == lines[0]
    ensures var r := StripTail(lines); r != [] && r[0] == lines[0] && r[|r| - 1] != []
  {
    var n := |lines| - 1;
    if Blank(lines[n]) {
      StripTailFirst(lines[..n]);
    } else {
      var k := TrimEndKeeps(lines[n]);
    }
  }

  lemma MarkStrips(lines: seq<Line>)
    requires lines != [] && lines[0] == "#"
    ensures var r := StripTail(StripHead(lines)); r != [] && r[0] == "#" && r[|r| - 1] != []
  {
    var mark := lines[0];
    assert !IsSpace(mark[0]) && !Blank(mark) && DropSpaces(mark) == mark && TrimEnd(mark) == mark;
    assert [mark] + lines[1..] == lines;
    StripTailFirst(lines);
  }

  lemma MarkIsNoTitle(lines: seq<Line>, layer: string)
    requires lines != [] && lines[0] == "#" && lines[|lines| - 1] != []
    ensures Parse(lines + [""], layer).title == ""
  {
    TrimFed(lines);
    var mark := lines[0];
    assert !IsSpace(mark[0]) && !Blank(mark);
  }

  /** A title mark alone is read back as a paragraph. */
  lemma BareMarkLost(b: Body, layer: string)
    requires b.title == "#"
    ensures Parse(Render(b), layer).title == ""
  {
    TitledText(b);
    MarkStrips(BodyText(b));
    MarkIsNoTitle(StripTail(StripHead(BodyText(b))), layer);
  }

  /** White space at the edges of a printed text is lost for good. */
  lemma EdgesLost(b: Body, layer: string)
    requires Sound(b.sections, layer) && !Stripped(BodyText(b))
    ensures Parse(Render(b), layer) != Body(b.title, Settle(b.sections))
  {
    var lines := BodyText(b);
    var stripped := StripTail(StripHead(lines));
    var back := Parse(Render(b), layer);
    TextEnds(b, layer);
    StripLoses(lines);
    BodyTextWeight(b);
    ParseInventsNothing(Render(b), layer);
    WeightAppends(if stripped == [] then [""] else stripped, [""]);
    WeightOne("");
  }

  /** A body prints a text that holds all of it: its title is more than the mark, the text has no white
      space at its edges, and without a title it does not open with a title line. */
  predicate Printable(b: Body) {
    && b.title != "#" && Stripped(BodyText(b))
    && (b.title == "" && BodyText(b) != [] ==> !IsTitle(BodyText(b)[0]))
  }

  /** A line that opens a text without a title and looks like one is read back as the title. */
  lemma StrayTitleRead(b: Body, layer: string)
    requires b.title == "" && BodyText(b) != [] && IsTitle(BodyText(b)[0]) && Stripped(BodyText(b))
    ensures Parse(Render(b), layer).title != ""
  {
    ParseStripped(BodyText(b), layer);
    var first := BodyText(b)[0];
    assert first[0] == '#';
    var n := TrimEndKeeps(first);
  }

  /** A sound body is read back settled exactly when it is printable. */
  lemma PrintsBack(b: Body, layer: string)
    requires Sound(b.sections, layer) && (b.title == "#" || TitleOk(b.title))
    ensures Parse(Render(b), layer) == Body(b.title, Settle(b.sections)) <==> Printable(b)
  {
    if b.title == "#" {
      BareMarkLost(b, layer);
    } else if !Stripped(BodyText(b)) {
      EdgesLost(b, layer);
    } else if b.title == "" && BodyText(b) != [] && IsTitle(BodyText(b)[0]) {
      StrayTitleRead(b, layer);
    } else {
      RenderParses(b, layer);
    }
  }

  /** A parsed body is printed and parsed back, without its empty sections, exactly when its title is
      more than the mark and its text has no white space at its edges; open fences and callouts included. */
  lemma RoundTrip(text: seq<Line>, layer: string)
    ensures var b := Parse(text, layer);
            Parse(Render(b), layer) == Body(b.title, Filled(b.sections)) <==> b.title != "#" && Stripped(BodyText(b))
  {
    var b := Parse(text, layer);
    ParseSound(text, layer);
    SettleFills(b.sections);
    ParsedTitle(text, layer);
    UntitledText(text, layer);
    PrintsBack(b, layer);
  }

  lemma ChunksSnoc(sections: seq<Section>, s: Section)
    ensures Chunks(sections + [s]) == Chunks(sections) + if s.units == [] then [] else [SectionText(s)]
  {
    assert (sections + [s])[..|sections|] == sections;
  }

  lemma {:induction false} FilledChunks(sections: seq<Section>)
    ensures Chunks(Filled(sections)) == Chunks(sections)
  {
    if sections != [] {
      var n := |sections| - 1;
      FilledChunks(sections[..n]);
      if sections[n].units == [] {
        assert Filled(sections) == Filled(sections[..n]);
      } else {
        ChunksSnoc(Filled(sections[..n]), sections[n]);
      }
    }
  }

  lemma {:induction false} FilledWhole(sections: seq<Section>, layer: string)
    requires Whole(sections, layer)
    ensures Whole(Filled(sections), layer)
  {
    if sections != [] {
      var n := |sections| - 1;
      FilledWhole(sections[..n], layer);
      if sections[n].units != [] { WholeSnoc(Filled(sections[..n]), sections[n], layer); }
    }
  }
}
