/** When the first line of a printed text is read as something else: a title, a heading, or the start of a
    callout. */
module BodyLost {
  import opened Options
  import opened Text
  import opened PageBodies
  import opened BodyRender
  import opened BodyParse
  import opened BodyRoundTrip
  import opened BodyNormal
  import opened BodyEdges
  import opened BodyReadBack

  /** A sound body as the split leaves it, whose text starts with a paragraph once its end is stripped. */
  predicate OpenBody(b: Body, layer: string) {
    && b.sections != [] && UnderHeads(b.sections) && Sound(b.sections, layer) && LastUnits(b) != [] && b.title == ""
    && Opens(Tailed(b))
  }

  function FirstUnit(b: Body): Unit
    requires LastUnits(b) != [] && Opens(Tailed(b))
  {
    HeadUnit(Tailed(b).sections[0].units[0])
  }

  function PrintedLines(b: Body): seq<Line>
    requires LastUnits(b) != [] && Opens(Tailed(b))
  {
    BodyText(Parted(Tailed(b)))
  }

  /** The printed lines start with the first unit's, and go on unless it is the only one. */
  lemma PrintedStart(b: Body, layer: string)
    requires OpenBody(b, layer)
    ensures var text := PrintedLines(b);
            && text != [] && Stripped(text) && !Blank(text[0]) && text[|text| - 1] != [] && Render(b) == text + [""]
            && FirstUnit(b).lines != [] && FirstUnit(b).lines[0] == text[0]
            && FirstUnit(b).lines <= text && (text == FirstUnit(b).lines ==> OneUnit(Tailed(b)))
  {
    hide BodyText, Stripped, Tailed, HeadUnit, StripHead, Join, Chunks, UnitsText;
    var t := Tailed(b);
    PrintedText(b, layer);
    TailedHeaded(b);
    TailedSound(b, layer);
    SoundHeading(t.sections, 0, layer);
    var units, rest := t.sections[0].units, t.sections[1..];
    assert UnitOk(units[0], layer);
    PartedBody(t, layer);
    PartedText(FirstUnit(b), units[1..], rest);
    TextOf(Parted(t));
    StrippedEnds(PrintedLines(b));
    MoreText(units, rest);
  }

  lemma MoreText(units: seq<Unit>, rest: seq<Section>)
    requires units != [] && NoneEmpty(rest)
    ensures AfterFirst(units[1..], rest) == [] ==> |units| == 1 && rest == []
  {
    if rest != [] {
      var n := |rest| - 1;
      assert Chunks(rest) == Chunks(rest[..n]) + [SectionText(rest[n])];
    }
  }

  lemma ParsePlain(text: seq<Line>, layer: string)
    requires text != [] && Stripped(text)
    ensures Parse(text + [""], layer) ==
            if IsTitle(text[0]) then Body(TrimEnd(text[0]), Keep(ParseFrom(text[1..], layer)))
            else Body("", Keep(ParseFrom(text, layer)))
  {
    hide Parse;
    ParseStripped(text, layer);
  }

  lemma TitleIsRead(text: seq<Line>, layer: string)
    requires text != [] && Stripped(text) && IsTitle(text[0])
    ensures Parse(text + [""], layer).title != ""
  {
    hide Parse, Stripped;
    ParsePlain(text, layer);
    assert text[0][0] == '#';
    var n := TrimEndKeeps(text[0]);
  }

  /** It is read as a title. */
  lemma StrayTitleLost(b: Body, layer: string)
    requires OpenBody(b, layer) && IsTitle(FirstUnit(b).lines[0])
    ensures Parse(Render(b), layer).title != ""
  {
    hide Parse, Render, Stripped, Sound, UnderHeads, Tailed, PrintedLines, FirstUnit, ParseFrom, Keep;
    PrintedStart(b, layer);
    TitleIsRead(PrintedLines(b), layer);
  }

  lemma FirstOfText(text: seq<Line>, layer: string)
    requires text != [] && Stripped(text) && !Blank(text[0]) && text[|text| - 1] != [] && !IsTitle(text[0])
    ensures var all := ParseFrom(text, layer);
            && Parse(text + [""], layer) == Body("", Keep(all)) && Sound(all, layer) && LeadFirst(all)
            && (all[0].units != [] ==> UnitOk(all[0].units[0], layer) && all[0].units[0].lines[0] == text[0])
  {
    hide Parse, Stripped, ParseFrom, Keep, ClassOf;
    ParsePlain(text, layer);
    LeadOfParse(text, layer);
    ParseFromSound(text, layer);
    SoundHeading(ParseFrom(text, layer), 0, layer);
  }

  /** Whatever else it is, it opens the first unit read before any heading. */
  lemma FirstRead(b: Body, layer: string)
    requires OpenBody(b, layer) && !IsTitle(FirstUnit(b).lines[0])
    ensures var all := ParseFrom(PrintedLines(b), layer);
            && Parse(Render(b), layer) == Body("", Keep(all)) && Sound(all, layer) && LeadFirst(all)
            && (all[0].units != [] ==>
                UnitOk(all[0].units[0], layer) && all[0].units[0].lines[0] == FirstUnit(b).lines[0])
  {
    hide Parse, Render, Stripped, Sound, UnderHeads, Tailed, PrintedLines, FirstUnit, ParseFrom, Keep;
    PrintedStart(b, layer);
    FirstOfText(PrintedLines(b), layer);
  }

  /** It is read as a heading, and no unit comes before it. */
  lemma HeadingLost(b: Body, layer: string)
    requires OpenBody(b, layer) && !IsTitle(FirstUnit(b).lines[0]) && ClassOf(FirstUnit(b).lines[0]) == Heads
    ensures forall k :: 0 <= k < |Parse(Render(b), layer).sections| ==>
            Parse(Render(b), layer).sections[k].heading.Some?
  {
    hide Tailed, HeadUnit, ParseFrom;
    FirstRead(b, layer);
    var all := ParseFrom(PrintedLines(b), layer);
    if all[0].units != [] {
      UnitIsNoHeading(all[0].units[0], layer);
      assert false;
    }
    KeepOf(all);
  }

  lemma UnitIsNoHeading(u: Unit, layer: string)
    requires UnitOk(u, layer)
    ensures ClassOf(u.lines[0]) != Heads
  {
    if u.kind != Callout { RunsPrefix(u.kind, u.lines, 0); }
  }

  // ---- the start of a callout -----------------------------------------------------------------------

  /** Where a callout that starts a text ends. */
  lemma {:induction false} CalloutEnd(lines: seq<Line>, n: nat) returns (e: nat)
    requires 1 <= n <= |lines| && CALLOUT_START <= lines[0] && NoneEnds(lines[1..n])
    ensures n <= e <= |lines|
    ensures IsCallout(lines[..e], true) || (e == |lines| && IsCallout(lines, false))
    decreases |lines| - n
  {
    e := n;
    if n < |lines| {
      if CALLOUT_END <= lines[n] {
        e := n + 1;
        assert lines[..e][1..|lines[..e]| - 1] == lines[1..n];
      } else {
        assert lines[1..n + 1] == lines[1..n] + [lines[n]];
        e := CalloutEnd(lines, n + 1);
      }
    } else {
      assert lines[1..n] == lines[1..];
    }
  }

  /** A first unit read before any heading stays as it is. */
  lemma FirstStays(s: State, line: Line, layer: string)
    requires s.sections != [] && s.sections[0].units != []
    ensures var r := Eat(s, line, layer);
            r.sections[0].units != [] && r.sections[0].units[0] == s.sections[0].units[0]
              && r.sections[0].heading == s.sections[0].heading
  {
    hide ClassOf, TrimEmpty;
  }

  lemma {:induction false} FirstStaysAll(s: State, lines: seq<Line>, layer: string)
    requires s.sections != [] && s.sections[0].units != []
    ensures var r := EatAll(s, lines, layer);
            r.sections[0].units != [] && r.sections[0].units[0] == s.sections[0].units[0]
              && r.sections[0].heading == s.sections[0].heading
  {
    if lines != [] {
      var n := |lines| - 1;
      FirstStaysAll(s, lines[..n], layer);
      FirstStays(EatAll(s, lines[..n], layer), lines[n], layer);
    }
  }

  lemma FinishStays(s: State, layer: string)
    requires s.sections != [] && s.sections[0].units != []
    ensures Finish(s, layer)[0].units != [] && Finish(s, layer)[0].units[0] == s.sections[0].units[0]
  {
    hide TrimEmpty;
  }

  /** A text that starts a callout has it as its first unit. */
  lemma CalloutFirst(text: seq<Line>, layer: string) returns (e: nat)
    requires text != [] && CALLOUT_START <= text[0]
    ensures 1 <= e <= |text| && (IsCallout(text[..e], true) || (e == |text| && IsCallout(text, false)))
    ensures ParseFrom(text, layer)[0].units != []
            && ParseFrom(text, layer)[0].units[0] == Unit(Callout, text[..e], layer)
  {
    hide EatAll, Finish, IsCallout;
    e := CalloutEnd(text, 1);
    var u := Unit(Callout, text[..e], layer);
    assert Flush(Clean(START), layer).sections == START;
    if IsCallout(text[..e], true) {
      EatCallout(Clean(START), text[..e], layer);
      var s := EatAll(Clean(START), text[..e], layer);
      assert s.sections == AddUnit(START, u);
      FirstStaysAll(s, text[e..], layer);
      EatAppends(Clean(START), text[..e], text[e..], layer);
      assert text[..e] + text[e..] == text;
      FinishStays(EatAll(s, text[e..], layer), layer);
    } else {
      EatOpenCallout(Clean(START), text, layer);
      assert text[..e] == text;
      FinishCallout(START, text, layer);
    }
  }

  lemma FinishCallout(sections: seq<Section>, text: seq<Line>, layer: string)
    requires sections != []
    ensures Finish(State(sections, text, Callout, InCallout), layer) == AddUnit(sections, Unit(Callout, text, layer))
  {
  }

  /** It starts a callout that is not just the first unit: what is read ends before that unit does, or after,
      and there is text in between. */
  lemma CalloutLost(b: Body, layer: string) returns (e: nat)
    requires OpenBody(b, layer) && !IsTitle(FirstUnit(b).lines[0])
    requires FirstUnit(b).kind == Callout && !HeadOk(Tailed(b))
    ensures var text, m := PrintedLines(b), |FirstUnit(b).lines|;
            && e <= |text| && m <= |text| && text[..m] == FirstUnit(b).lines && e != m
            && (exists k :: (if e < m then e <= k < m else m <= k < e) && !Blank(text[k]))
            && var sections := Parse(Render(b), layer).sections;
               && sections != [] && sections[0].heading.None? && sections[0].units != []
               && sections[0].units[0].lines == text[..e]
  {
    hide BodyText, Stripped, Tailed, HeadUnit, ParseFrom, IsCallout, PrintedLines, FirstUnit, Sound, UnderHeads;
    var text, m := PrintedLines(b), |FirstUnit(b).lines|;
    PrintedStart(b, layer);
    StartsIt(b);
    assert text[..m] == FirstUnit(b).lines;
    e := CalloutFirst(text, layer);
    NotJustIt(b, text, m, e);
    FirstRead(b, layer);
    KeepOf(ParseFrom(text, layer));
    if e < m {
      FirstUnitText(b, layer, e);
      assert text[e] == FirstUnit(b).lines[e];
    } else {
      CalloutText(text, e);
    }
  }

  lemma NotJustIt(b: Body, text: seq<Line>, m: nat, e: nat)
    requires LastUnits(b) != [] && Opens(Tailed(b)) && FirstUnit(b).kind == Callout && !HeadOk(Tailed(b))
    requires !IsTitle(FirstUnit(b).lines[0]) && ClassOf(FirstUnit(b).lines[0]) == StartsCallout
    requires e <= |text| && m <= |text| && text[..m] == FirstUnit(b).lines
             && (text == FirstUnit(b).lines ==> OneUnit(Tailed(b)))
    requires IsCallout(text[..e], true) || (e == |text| && IsCallout(text, false))
    ensures e != m
  {
    hide IsCallout, HeadUnit, Tailed, ClassOf;
    assert text[..|text|] == text;
  }

  lemma StartsIt(b: Body)
    requires LastUnits(b) != [] && Opens(Tailed(b)) && FirstUnit(b).kind == Callout
    ensures CALLOUT_START <= FirstUnit(b).lines[0] && ClassOf(FirstUnit(b).lines[0]) == StartsCallout
  {
  }

  lemma FirstUnitText(b: Body, layer: string, k: nat)
    requires OpenBody(b, layer) && FirstUnit(b).kind == Callout && 1 <= k < |FirstUnit(b).lines|
    ensures !Blank(FirstUnit(b).lines[k])
  {
    hide Tailed, ClassOf, Sound, Runs;
    TailedSound(b, layer);
    SoundHeading(Tailed(b).sections, 0, layer);
    var u := Tailed(b).sections[0].units[0];
    assert UnitOk(u, layer);
    StartsIt(b);
    NoFenceFirst(u.lines);
    PlainLines(u.lines, k);
  }

  lemma NoFenceFirst(lines: seq<Line>)
    requires Runs(Paragraph, lines) && ClassOf(DropSpaces(lines[0])) == StartsCallout
    ensures !IsFence(lines[0])
  {
    RunsPrefix(Paragraph, lines, 0);
    DropSpacesClass(lines[0]);
  }

  lemma CalloutText(text: seq<Line>, e: nat)
    requires text != [] && Stripped(text) && 1 <= e <= |text| && (IsCallout(text[..e], true) || e == |text|)
    ensures !Blank(text[e - 1])
  {
    if IsCallout(text[..e], true) {
      assert text[..e][e - 1] == text[e - 1] && text[e - 1][0] == '<';
    } else {
      LastHasText(text);
    }
  }

  lemma LastHasText(text: seq<Line>)
    requires text != [] && Stripped(text)
    ensures !Blank(text[|text| - 1])
  {
    HeadShrinks(text);
    TailShrinks(StripHead(text));
    assert StripHead(text)[|text| - 1] == if |text| == 1 then DropSpaces(text[0]) else text[|text| - 1];
    if |text| == 1 { assert !Blank(text[0]); }
  }
}
