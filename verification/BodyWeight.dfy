/** The parser never invents text: what it returns is no longer than what it read. */
module BodyWeight {
  import opened Options
  import opened Text
  import opened PageBodies
  import opened BodyRender
  import opened BodyRoundTrip

  /** The characters of a text, line feeds apart. */
  function Weight(lines: seq<Line>): nat {
    if lines == [] then 0 else Weight(lines[..|lines| - 1]) + |lines[|lines| - 1]|
  }

  function UnitsWeight(units: seq<Unit>): nat {
    if units == [] then 0 else UnitsWeight(units[..|units| - 1]) + Weight(units[|units| - 1].lines)
  }

  function SectionWeight(s: Section): nat { (if s.heading.Some? then |s.heading.value| else 0) + UnitsWeight(s.units) }

  function SectionsWeight(sections: seq<Section>): nat {
    if sections == [] then 0 else SectionsWeight(sections[..|sections| - 1]) + SectionWeight(sections[|sections| - 1])
  }

  lemma {:induction false} WeightAppends(a: seq<Line>, b: seq<Line>)
    ensures Weight(a + b) == Weight(a) + Weight(b)
  {
    if b == [] {
      assert a + b == a;
    } else {
      var n := |b| - 1;
      WeightAppends(a, b[..n]);
      assert (a + b)[..|a + b| - 1] == a + b[..n];
    }
  }

  lemma WeightOne(line: Line)
    ensures Weight([line]) == |line|
  {
    assert [line][..0] == [];
  }

  lemma {:induction false} UnitsWeightAppends(a: seq<Unit>, b: seq<Unit>)
    ensures UnitsWeight(a + b) == UnitsWeight(a) + UnitsWeight(b)
  {
    if b == [] {
      assert a + b == a;
    } else {
      var n := |b| - 1;
      UnitsWeightAppends(a, b[..n]);
      assert (a + b)[..|a + b| - 1] == a + b[..n];
    }
  }

  lemma AddWeight(sections: seq<Section>, units: seq<Unit>)
    requires sections != []
    ensures SectionsWeight(AddUnits(sections, units)) == SectionsWeight(sections) + UnitsWeight(units)
  {
    UnitsWeightAppends(sections[|sections| - 1].units, units);
    assert AddUnits(sections, units)[..|sections| - 1] == sections[..|sections| - 1];
  }

  lemma AddOneWeight(sections: seq<Section>, unit: Unit)
    requires sections != []
    ensures SectionsWeight(AddUnit(sections, unit)) == SectionsWeight(sections) + Weight(unit.lines)
  {
    AddWeight(sections, [unit]);
    AddOneMore(sections, [], unit);
    assert [unit][..0] == [];
  }

  // ---- the parser -------------------------------------------------------------------------------------

  lemma {:induction false} DropWeight(lines: seq<Line>)
    ensures Weight(DropEmpty(lines)) <= Weight(lines)
    ensures Weight(SkipBlank(lines)) <= Weight(lines)
    ensures Weight(StripHead(lines)) <= Weight(lines)
  {
    if lines != [] {
      DropWeight(lines[1..]);
      WeightAppends([lines[0]], lines[1..]);
      assert [lines[0]] + lines[1..] == lines;
      WeightOne(lines[0]);
      DropsShorter(lines[0]);
      WeightAppends([DropSpaces(lines[0])], lines[1..]);
      WeightOne(DropSpaces(lines[0]));
    }
  }

  lemma {:induction false} DropsShorter(t: string)
    ensures |DropSpaces(t)| <= |t| && (DropSpaces(t) != t ==> |DropSpaces(t)| < |t|)
    ensures |TrimEnd(t)| <= |t| && (TrimEnd(t) != t ==> |TrimEnd(t)| < |t|)
  {
    if t != [] {
      DropsShorter(t[1..]);
      DropsShorter(t[..|t| - 1]);
    }
  }

  lemma {:induction false} TrimWeight(lines: seq<Line>)
    ensures Weight(TrimEmpty(lines)) <= Weight(lines)
  {
    if lines != [] && lines[|lines| - 1] == [] { TrimWeight(lines[..|lines| - 1]); } else { DropWeight(lines); }
  }

  function StateWeight(s: State): nat { SectionsWeight(s.sections) + Weight(s.current) }

  lemma FlushWeight(s: State, layer: string)
    requires s.sections != []
    ensures SectionsWeight(Flush(s, layer).sections) <= StateWeight(s)
  {
    TrimWeight(s.current);
    AddOneWeight(s.sections, Unit(s.kind, TrimEmpty(s.current), layer));
  }

  lemma TakenWeight(s: State, line: Line)
    ensures Weight(s.current + [line]) == Weight(s.current) + |line|
    ensures Weight([line]) == |line|
  {
    WeightAppends(s.current, [line]);
    WeightOne(line);
  }

  lemma HeadsWeight(sections: seq<Section>, line: Line)
    ensures SectionsWeight(sections + [Section(Some(TrimEnd(line)), [])]) <= SectionsWeight(sections) + |line|
  {
    var heading := Section(Some(TrimEnd(line)), []);
    assert (sections + [heading])[..|sections|] == sections;
    DropsShorter(line);
  }

  lemma EatOpenWeight(s: State, line: Line, layer: string)
    requires s.sections != [] && s.mode == Open
    ensures StateWeight(Eat(s, line, layer)) <= StateWeight(s) + |line|
  {
    FlushWeight(s, layer);
    TakenWeight(s, line);
    match ClassOf(line)
    case Heads => {
      HeadsWeight(Flush(s, layer).sections, line);
    }
    case _ => {
    }
  }

  lemma EatWeight(s: State, line: Line, layer: string)
    requires s.sections != []
    ensures StateWeight(Eat(s, line, layer)) <= StateWeight(s) + |line|
  {
    TakenWeight(s, line);
    if s.mode == Open {
      EatOpenWeight(s, line, layer);
    } else {
      AddOneWeight(s.sections, Unit(Callout, s.current + [line], layer));
    }
  }

  lemma {:induction false} EatAllWeight(s: State, lines: seq<Line>, layer: string)
    requires s.sections != []
    ensures StateWeight(EatAll(s, lines, layer)) <= StateWeight(s) + Weight(lines)
  {
    if lines != [] {
      var n := |lines| - 1;
      EatAllWeight(s, lines[..n], layer);
      EatWeight(EatAll(s, lines[..n], layer), lines[n], layer);
    }
  }

  lemma {:induction false} KeepWeight(sections: seq<Section>)
    ensures SectionsWeight(Keep(sections)) == SectionsWeight(sections)
  {
    if sections != [] {
      var n := |sections| - 1;
      KeepWeight(sections[..n]);
      if sections[n].heading.None? && sections[n].units == [] {
        assert Keep(sections) == Keep(sections[..n]);
      } else {
        assert (Keep(sections[..n]) + [sections[n]])[..|Keep(sections[..n])|] == Keep(sections[..n]);
      }
    }
  }

  lemma ParseFromWeight(lines: seq<Line>, layer: string)
    ensures SectionsWeight(Keep(ParseFrom(lines, layer))) <= Weight(lines)
  {
    var s := EatAll(Clean(START), lines, layer);
    EatAllWeight(Clean(START), lines, layer);
    assert START[..0] == [];
    assert SectionsWeight(START) == 0;
    FlushWeight(s, layer);
    AddOneWeight(s.sections, Unit(Callout, s.current, layer));
    KeepWeight(ParseFrom(lines, layer));
  }

  lemma TitleWeight(lines: seq<Line>)
    requires lines != []
    ensures |TrimEnd(lines[0])| + Weight(lines[1..]) <= Weight(lines)
  {
    WeightAppends([lines[0]], lines[1..]);
    assert [lines[0]] + lines[1..] == lines;
    WeightOne(lines[0]);
    DropsShorter(lines[0]);
  }

  /** Titles, headings and units together hold no more characters than the text parsed. */
  lemma ParseInventsNothing(text: seq<Line>, layer: string)
    ensures var b := Parse(text, layer); |b.title| + SectionsWeight(b.sections) <= Weight(text)
  {
    var lines := SkipBlank(TrimEmpty(text));
    TrimWeight(text);
    DropWeight(TrimEmpty(text));
    if lines != [] && IsTitle(lines[0]) {
      TitleWeight(lines);
      ParseFromWeight(lines[1..], layer);
    } else {
      ParseFromWeight(lines, layer);
    }
  }

  // ---- the printer ------------------------------------------------------------------------------------

  lemma FollowWeight(whole: seq<Line>, text: seq<Line>, a: Unit, b: Unit)
    requires whole == Follow(text, a, b)
    ensures Weight(whole) == Weight(text) + Weight(b.lines)
  {
    WeightAppends(text + Gap(a, b), b.lines);
    WeightAppends(text, Gap(a, b));
    WeightOne("");
  }

  lemma UnitsTextMore(units: seq<Unit>)
    requires |units| > 1
    ensures Weight(UnitsText(units)) == Weight(UnitsText(units[..|units| - 1])) + Weight(units[|units| - 1].lines)
  {
    var n := |units| - 1;
    LastText(units);
    FollowWeight(UnitsText(units), UnitsText(units[..n]), units[n - 1], units[n]);
  }

  lemma {:induction false} UnitsTextWeight(units: seq<Unit>)
    ensures Weight(UnitsText(units)) == UnitsWeight(units)
  {
    if |units| > 1 {
      UnitsTextWeight(units[..|units| - 1]);
      UnitsTextMore(units);
    } else if units != [] {
      assert units[..0] == [];
      assert UnitsWeight(units[..0]) == 0;
    }
  }

  lemma SectionTextWeight(s: Section)
    ensures Weight(SectionText(s)) == SectionWeight(s)
  {
    UnitsTextWeight(s.units);
    if s.heading.Some? {
      WeightAppends([s.heading.value], UnitsText(s.units));
      WeightOne(s.heading.value);
    } else {
      assert SectionText(s) == UnitsText(s.units);
    }
  }

  lemma JoinedWeight(before: seq<Line>, text: seq<Line>)
    ensures Weight(before + [""] + text) == Weight(before) + Weight(text)
  {
    WeightAppends(before + [""], text);
    WeightAppends(before, [""]);
    WeightOne("");
  }

  lemma {:induction false} ChunksWeight(sections: seq<Section>)
    ensures Weight(Join(Chunks(sections))) == SectionsWeight(Settle(sections))
  {
    hide Weight, SectionText, Join, SectionsWeight, SectionWeight, AddUnits;
    if sections == [] {
      NoWeight();
    } else {
      var n := |sections| - 1;
      var last, before := sections[n], Chunks(sections[..n]);
      ChunksWeight(sections[..n]);
      ChunksOneMore(sections);
      if last.units != [] {
        SectionTextWeight(last);
        SettleWeight(Settle(sections[..n]), last);
        JoinedWeight(Join(before), SectionText(last));
        if before == [] { NoWeight(); }
      }
    }
  }

  lemma NoWeight()
    ensures Join([]) == [] && Weight([]) == 0 && SectionsWeight([]) == 0
  {
  }

  lemma SettleWeight(before: seq<Section>, last: Section)
    ensures SectionsWeight(before + [last]) == SectionsWeight(before) + SectionWeight(last)
    ensures last.heading.None? && before != [] ==>
            SectionsWeight(AddUnits(before, last.units)) == SectionsWeight(before) + SectionWeight(last)
  {
    assert (before + [last])[..|before|] == before;
    if before != [] { AddWeight(before, last.units); }
  }

  lemma BodyTextWeight(b: Body)
    ensures Weight(BodyText(b)) == |b.title| + SectionsWeight(Settle(b.sections))
  {
    TextOf(b);
    ChunksWeight(b.sections);
    if b.title != "" {
      TitledText(b);
      var text := Join(Chunks(b.sections));
      WeightAppends([b.title], BodyText(b)[1..]);
      assert [b.title] + BodyText(b)[1..] == BodyText(b);
      WeightOne(b.title);
      WeightAppends([""], text);
      WeightOne("");
    }
  }

  // ---- the strip --------------------------------------------------------------------------------------

  lemma StripHeadLoses(lines: seq<Line>)
    requires lines != [] && lines[0] != [] && StripHead(lines) != lines
    ensures Weight(StripHead(lines)) < Weight(lines)
  {
    DropWeight(lines[1..]);
    WeightAppends([lines[0]], lines[1..]);
    assert [lines[0]] + lines[1..] == lines;
    WeightOne(lines[0]);
    DropsShorter(lines[0]);
    WeightAppends([DropSpaces(lines[0])], lines[1..]);
    WeightOne(DropSpaces(lines[0]));
  }

  lemma TrimmedLast(lines: seq<Line>)
    requires lines != []
    ensures var n := |lines| - 1;
            && Weight(lines[..n] + [TrimEnd(lines[n])]) <= Weight(lines)
            && (TrimEnd(lines[n]) != lines[n] ==> Weight(lines[..n] + [TrimEnd(lines[n])]) < Weight(lines))
  {
    var n := |lines| - 1;
    DropsShorter(lines[n]);
    WeightAppends(lines[..n], [TrimEnd(lines[n])]);
    WeightOne(TrimEnd(lines[n]));
  }

  lemma {:induction false} TailWeight(lines: seq<Line>)
    ensures Weight(StripTail(lines)) <= Weight(lines)
    ensures lines != [] && lines[|lines| - 1] != [] && StripTail(lines) != lines ==>
            Weight(StripTail(lines)) < Weight(lines)
  {
    if lines != [] {
      var n := |lines| - 1;
      TailWeight(lines[..n]);
      TrimmedLast(lines);
      if TrimEnd(lines[n]) == lines[n] && !Blank(lines[n]) { assert StripTail(lines) == lines; }
    }
  }

  /** Stripping white space off the edges of a text whose first and last lines are not empty loses some of it. */
  lemma StripLoses(lines: seq<Line>)
    requires lines != [] && lines[0] != [] && lines[|lines| - 1] != [] && !Stripped(lines)
    ensures Weight(StripTail(StripHead(lines))) < Weight(lines)
  {
    TailWeight(StripHead(lines));
    DropWeight(lines);
    if StripHead(lines) != lines {
      StripHeadLoses(lines);
    }
  }
}
