/** Printing then parsing: what comes back, and exactly when it is the body printed. */
module BodyRoundTrip {
  import opened Options
  import opened Text
  import opened PageBodies
  import opened BodyRender
  import opened BodyParse

  // ---- what comes back ------------------------------------------------------------------------------

  /** Sections without units are gone, and units under no heading belong to the section before them. */
  function Settle(sections: seq<Section>): seq<Section> {
    if sections == [] then []
    else
      var n := |sections| - 1;
      var before, last := Settle(sections[..n]), sections[n];
      if last.units == [] then before
      else if last.heading.None? && before != [] then AddUnits(before, last.units)
      else before + [last]
  }

  predicate NoneEmpty(sections: seq<Section>) { forall k :: 0 <= k < |sections| ==> sections[k].units != [] }

  lemma {:induction false} KeepsFull(sections: seq<Section>)
    requires NoneEmpty(sections)
    ensures Keep(sections) == sections
  {
    if sections != [] {
      var n := |sections| - 1;
      KeepsFull(sections[..n]);
      assert sections[..n] + [sections[n]] == sections;
    }
  }

  lemma {:induction false} KeepStart(sections: seq<Section>)
    requires NoneEmpty(sections)
    ensures Keep(START + sections) == sections
  {
    if sections == [] {
      assert START + sections == START && START[..0] == [];
      assert Keep(START[..0]) == [];
    } else {
      var n := |sections| - 1;
      KeepStart(sections[..n]);
      assert (START + sections)[..n + 1] == START + sections[..n];
      assert sections[..n] + [sections[n]] == sections;
    }
  }

  predicate Leads(sections: seq<Section>) { sections != [] && sections[0].heading.None? }

  /** The parser holds the settled sections, after an empty lead if they have none of their own. */
  lemma {:induction false} HoldAllSettles(sections: seq<Section>)
    ensures NoneEmpty(Settle(sections))
    ensures HoldAll(sections) == if Leads(Settle(sections)) then Settle(sections) else START + Settle(sections)
  {
    if sections != [] {
      var n := |sections| - 1;
      HoldAllSettles(sections[..n]);
      if sections[n].units != [] { HoldSettles(Settle(sections[..n]), sections[n]); }
    }
  }

  lemma HoldSettles(before: seq<Section>, last: Section)
    requires NoneEmpty(before) && last.units != []
    ensures var held := if Leads(before) then before else START + before;
            var after := if last.heading.None? && before != [] then AddUnits(before, last.units) else before + [last];
            NoneEmpty(after) && Hold(held, last) == if Leads(after) then after else START + after
  {
    assert [] + last.units == last.units;
    if before == [] {
      assert START + before == START && before + [last] == [last];
    } else if last.heading.None? {
      assert (START + before)[..|before|] == START + before[..|before| - 1];
    } else {
      assert START + before + [last] == START + (before + [last]);
    }
  }

  lemma KeepHeld(sections: seq<Section>)
    ensures Keep(HoldAll(sections)) == Settle(sections)
  {
    HoldAllSettles(sections);
    KeepsFull(Settle(sections));
    KeepStart(Settle(sections));
  }

  // ---- the edges of a text --------------------------------------------------------------------------

  /** The text has no white space at its edges. */
  predicate Stripped(lines: seq<Line>) { StripTail(StripHead(lines)) == lines }

  lemma {:induction false} HeadShrinks(lines: seq<Line>)
    ensures |StripHead(lines)| <= |lines|
    ensures |StripHead(lines)| == |lines| && lines != [] ==>
            !Blank(lines[0]) && StripHead(lines) == [DropSpaces(lines[0])] + lines[1..]
  {
    if lines != [] && Blank(lines[0]) { HeadShrinks(lines[1..]); }
  }

  lemma {:induction false} TailShrinks(lines: seq<Line>)
    ensures |StripTail(lines)| <= |lines|
    ensures |StripTail(lines)| == |lines| && lines != [] ==>
              !Blank(lines[|lines| - 1]) && StripTail(lines) == lines[..|lines| - 1] + [TrimEnd(lines[|lines| - 1])]
  {
    if lines != [] && Blank(lines[|lines| - 1]) { TailShrinks(lines[..|lines| - 1]); }
  }

  lemma StrippedEnds(lines: seq<Line>)
    requires Stripped(lines) && lines != []
    ensures !Blank(lines[0]) && lines[|lines| - 1] != []
  {
    HeadShrinks(lines);
    TailShrinks(StripHead(lines));
    if |lines| > 1 {
      assert StripHead(lines)[|lines| - 1] == lines[|lines| - 1];
    } else {
      var none: Line := [];
      assert Blank(none);
    }
  }

  lemma TrimFed(lines: seq<Line>)
    requires lines != [] ==> lines[0] != [] && lines[|lines| - 1] != []
    ensures TrimEmpty(lines + [""]) == lines
  {
    assert (lines + [""])[..|lines|] == lines;
  }

  /** A text without white space at its edges is parsed as it stands. */
  lemma ParseStripped(lines: seq<Line>, layer: string)
    requires Stripped(lines) && lines != []
    ensures Parse(StripTail(StripHead(lines)) + [""], layer) ==
            if IsTitle(lines[0]) then Body(TrimEnd(lines[0]), Keep(ParseFrom(lines[1..], layer)))
            else Body("", Keep(ParseFrom(lines, layer)))
  {
    StrippedEnds(lines);
    TrimFed(lines);
  }

  // ---- the theorem ----------------------------------------------------------------------------------

  predicate TitleOk(title: Line) { title == "" || (IsTitle(title) && TrimEnd(title) == title) }

  lemma {:induction false} JoinFirst(first: seq<Line>, parts: seq<seq<Line>>)
    ensures Join([first] + parts) == if parts == [] then first else first + [""] + Join(parts)
  {
    if parts == [] {
      assert [first] + parts == [first];
    } else {
      var n := |parts| - 1;
      JoinFirst(first, parts[..n]);
      assert ([first] + parts)[..n + 1] == [first] + parts[..n];
      if n > 0 {
        assert first + [""] + Join(parts[..n]) + [""] + parts[n] == first + [""] + (Join(parts[..n]) + [""] + parts[n]);
      }
    }
  }

  lemma TextOf(b: Body)
    ensures var text := Join(Chunks(b.sections));
            BodyText(b) == if b.title == "" then text
                           else if Chunks(b.sections) == [] then [b.title] else [b.title] + [""] + text
  {
    if b.title == "" {
      assert [] + Chunks(b.sections) == Chunks(b.sections);
    } else {
      JoinFirst([b.title], Chunks(b.sections));
    }
  }

  lemma SectionsParse(sections: seq<Section>, layer: string)
    requires Sound(sections, layer)
    ensures Keep(ParseFrom(Join(Chunks(sections)), layer)) == Settle(sections)
    ensures Keep(ParseFrom([""] + Join(Chunks(sections)), layer)) == Settle(sections)
  {
    SectionsEaten(sections, layer);
    KeepHeld(sections);
    EmptyEaten(Clean(START), START, layer);
    EatAppends(Clean(START), [""], Join(Chunks(sections)), layer);
  }

  lemma ParseNothing(layer: string)
    ensures Parse([""], layer) == Body("", [])
  {
    assert TrimEmpty([""]) == [] by { assert [""][..0] == []; }
    assert EatAll(Clean(START), [], layer) == Clean(START);
    KeepStart([]);
    assert START + [] == START;
  }

  lemma UntitledParses(b: Body, layer: string)
    requires Sound(b.sections, layer) && b.title == "" && Stripped(BodyText(b))
    requires BodyText(b) != [] && !IsTitle(BodyText(b)[0])
    ensures Parse(Render(b), layer) == Body(b.title, Settle(b.sections))
  {
    TextOf(b);
    ParseStripped(BodyText(b), layer);
    SectionsParse(b.sections, layer);
  }

  lemma TitledText(b: Body)
    requires b.title != ""
    ensures var text := Join(Chunks(b.sections));
            BodyText(b) != [] && BodyText(b)[0] == b.title &&
            BodyText(b)[1..] == if Chunks(b.sections) == [] then text else [""] + text
  {
    hide Chunks;
    TextOf(b);
    if Chunks(b.sections) != [] {
      assert [b.title] + [""] + Join(Chunks(b.sections)) == [b.title] + ([""] + Join(Chunks(b.sections)));
    }
  }

  lemma TitledParses(b: Body, layer: string)
    requires Sound(b.sections, layer) && b.title != "" && TitleOk(b.title) && Stripped(BodyText(b))
    ensures Parse(Render(b), layer) == Body(b.title, Settle(b.sections))
  {
    TitledText(b);
    SectionsParse(b.sections, layer);
    ParseStripped(BodyText(b), layer);
  }

  lemma {:induction false} SettleNothing(sections: seq<Section>)
    requires Chunks(sections) == []
    ensures Settle(sections) == []
  {
    if sections != [] { SettleNothing(sections[..|sections| - 1]); }
  }

  lemma {:induction false} SomeText(sections: seq<Section>, layer: string)
    requires Sound(sections, layer) && Chunks(sections) != []
    ensures Join(Chunks(sections)) != []
  {
    var n := |sections| - 1;
    ChunksOneMore(sections);
    if sections[n].units == [] {
      WholeIsSound(sections[..n], layer);
      SomeText(sections[..n], layer);
    } else {
      LastOfUnits(sections[n].units, layer);
    }
  }

  lemma LastOfUnits(units: seq<Unit>, layer: string)
    requires units != [] && UnitsOk(units, layer)
    ensures var text, last := UnitsText(units), units[|units| - 1].lines;
            text != [] && last != [] && text[|text| - 1] == last[|last| - 1] && text[|text| - 1] != []
  {
    var n := |units| - 1;
    assert UnitOk(units[n], layer);
  }

  /** Parsing a printed body gives its sections back, settled. */
  lemma RenderParses(b: Body, layer: string)
    requires Sound(b.sections, layer) && TitleOk(b.title) && Stripped(BodyText(b))
    requires b.title == "" && BodyText(b) != [] ==> !IsTitle(BodyText(b)[0])
    ensures Parse(Render(b), layer) == Body(b.title, Settle(b.sections))
  {
    TextOf(b);
    if BodyText(b) == [] {
      if Chunks(b.sections) != [] { SomeText(b.sections, layer); }
      ParseNothing(layer);
      SettleNothing(b.sections);
    } else if b.title == "" {
      UntitledParses(b, layer);
    } else {
      TitledParses(b, layer);
    }
  }
}
