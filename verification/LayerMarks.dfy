/** A body that starts a stray callout with an end, and of which everything is seen all the same. */
module LayerMarks {
  import opened Options
  import opened Text
  import opened PageBodies
  import opened BodyRender
  import opened BodyParse
  import opened BodyRoundTrip
  import opened BodyNormal
  import opened BodyEdges
  import opened BodyReadBack
  import opened BodyLost
  import opened LayerPages
  import opened LayerFacts
  import opened LayerSections
  import opened LayerSplit
  import opened LayerStored
  import opened LayerFuse
  import opened LayerUnseen
  import opened LayerLosses

  /** Both marks on one line, and that line indented. */
  const BOTH: Line := CALLOUT_START + (" " + CALLOUT_END)
  const JOINED: Line := " " + BOTH

  /** The lines of the second paragraph, and those the callout takes in. */
  const LATER: seq<Line> := [STRAY, CALLOUT_END, JOINED]
  const TAKEN: seq<Line> := [BOTH, "", STRAY, CALLOUT_END]

  const MARKS: seq<Line> := [JOINED, "", STRAY, CALLOUT_END, JOINED]

  function Second(layer: string): Unit { Unit(Paragraph, LATER, layer) }

  function First(layer: string): Unit { Unit(Paragraph, [JOINED], layer) }

  function Stored(layer: string): Body { Lead2(First(layer), Second(layer)) }

  function Lead2(a: Unit, b: Unit): Body { Body("", [Section(None, [a, b])]) }

  // ---- the lines ----------------------------------------------------------------------------------------

  lemma EndMark()
    ensures CALLOUT_END[0] == '<' && CALLOUT_END[|CALLOUT_END| - 1] == ':' && CALLOUT_START[0] == '<'
    ensures !(CALLOUT_START <= CALLOUT_END)
  {
    assert CALLOUT_END == "<!-- stigmergy-contradiction-end" + ":";
    assert CALLOUT_START[29] == 's' && CALLOUT_END[29] == 'e';
  }

  lemma JoinedIs()
    ensures JOINED[0] == ' ' && JOINED[1..] == BOTH && CALLOUT_START <= BOTH && BOTH[0] == '<'
            && JOINED[|JOINED| - 1] == ':'
  {
    EndMark();
    assert JOINED[1..] == BOTH;
    assert BOTH[..|CALLOUT_START|] == CALLOUT_START && BOTH[0] == CALLOUT_START[0];
    assert JOINED[|JOINED| - 1] == BOTH[|BOTH| - 1] == (" " + CALLOUT_END)[|CALLOUT_END|] ==
           CALLOUT_END[|CALLOUT_END| - 1];
  }

  lemma TagLine(line: Line)
    requires line != [] && line[0] == '<' && !(CALLOUT_START <= line)
    ensures ClassOf(line) == Continues
  {
    hide IsFence;
    assert !IsSpace('<');
    NotFence(line);
    assert Run(line, {'#'}) == 0 && Run(line, DIGITS) == 0;
  }

  lemma EndLine()
    ensures ClassOf(CALLOUT_END) == Continues
  {
    hide ClassOf;
    EndMark();
    TagLine(CALLOUT_END);
  }

  lemma JoinedLine()
    ensures ClassOf(JOINED) == Continues && !IsTitle(JOINED) && !Blank(JOINED) && TrimEnd(JOINED) == JOINED
            && DropSpaces(JOINED) == BOTH
  {
    hide Blank, ClassOf, IsTitle, IsFence;
    JoinedIs();
    assert !IsSpace('<') && !IsSpace(':') && IsSpace(' ');
    assert JOINED[1] == BOTH[0];
    DropSpacesIs(JOINED, 1);
    TrimEndIs(JOINED, |JOINED|);
    NotFence(BOTH);
    FenceEdges(JOINED);
    SomeText(JOINED, 1);
    IndentedLine(JOINED);
  }

  lemma SomeText(line: Line, k: nat)
    requires k < |line| && !IsSpace(line[k])
    ensures !Blank(line)
  {
  }

  // ---- the body -----------------------------------------------------------------------------------------

  lemma UnitsAre(layer: string)
    ensures UnitOk(First(layer), layer) && Closed(First(layer)) && UnitOk(Second(layer), layer) && Closed(Second(layer))
  {
    hide ClassOf, UnitOk, Closed;
    JoinedLine();
    StrayLine();
    EndLine();
    Continued([JOINED], layer);
    Continued(LATER, layer);
  }

  lemma Continued(lines: seq<Line>, layer: string)
    requires lines != [] && lines[|lines| - 1] != [] && forall k :: 0 <= k < |lines| ==> ClassOf(lines[k]) == Continues
    ensures var u := Unit(Paragraph, lines, layer); UnitOk(u, layer) && Closed(u)
  {
    hide ClassOf, Runs, InFence;
    AllContinue(lines);
  }

  lemma MarksParse()
    ensures Parse(MARKS, PUBLIC) == Stored(PUBLIC)
  {
    hide Parse, ClassOf, UnitsText, UnitOk, Closed;
    var a, b := First(PUBLIC), Second(PUBLIC);
    UnitsAre(PUBLIC);
    JoinedLine();
    TwoText(a, b);
    assert a.lines + [""] + b.lines == MARKS;
    LeadParses([a, b]);
  }

  lemma MarksLeft(names: Names)
    ensures SplitBody(names, MARKS, NOTHING) == Stored(PUBLIC)
  {
    hide Parse, SplitBody;
    var units := [First(PUBLIC), Second(PUBLIC)];
    MarksParse();
    NothingParses();
    WithoutNone(names, units, {});
    assert Known(names, []) == {};
    SplitLead(names, MARKS, NOTHING, units, units);
  }

  lemma TailStands(layer: string)
    ensures Tailed(Stored(layer)) == Stored(layer) && Opens(Stored(layer))
  {
    hide TrimEnd, StripTail, IsItem, ClassOf;
    JoinedLine();
    LastLineKept(LATER);
    assert TailUnit(Second(layer)) == Second(layer);
    assert TailUnits([First(layer), Second(layer)]) == [First(layer), Second(layer)];
  }

  /** What is printed: the first line without its indent, a stray start. */
  lemma MarksPrinted(layer: string)
    ensures var b := Stored(layer);
            && Tailed(b) == b && OpenBody(b, layer) && FirstUnit(b) == Unit(Callout, [BOTH], layer)
            && PrintedLines(b) == TAKEN + [JOINED] && !HeadOk(b)
  {
    hide BodyText, Parted, UnitsText, Tailed, Sound, HeadOk, ClassOf, UnitOk, AfterFirst;
    var b := Stored(layer);
    TailStands(layer);
    MarksOpen(layer);
    PrintedAs(b);
    assert [First(layer), Second(layer)][1..] == [Second(layer)];
    MarksAfter(layer);
    assert b.sections[1..] == [];
    assert [BOTH] + ([""] + LATER) == TAKEN + [JOINED];
  }

  lemma MarksAfter(layer: string)
    ensures AfterFirst([Second(layer)], []) == [""] + LATER
  {
    TwoText(Second(layer), Second(layer));
    assert Chunks([]) == [];
  }

  lemma MarksOpen(layer: string)
    ensures var b := Stored(layer); OpenBody(b, layer) && FirstUnit(b) == Unit(Callout, [BOTH], layer) && !HeadOk(b)
  {
    hide UnitOk, Closed, Tailed, TrimEnd, DropSpaces, Runs;
    TailStands(layer);
    UnitsAre(layer);
    JoinedLine();
    JoinedIs();
    assert Front([First(layer), Second(layer)]) == [First(layer)];
    assert [Section(None, [First(layer), Second(layer)])][..0] == [];
    assert HeadUnit(First(layer)).lines == [BOTH];
  }

  lemma TakenIsCallout()
    ensures IsCallout(TAKEN, true)
  {
    EndMark();
    JoinedIs();
    StrayEnds();
    assert TAKEN[1..3] == ["", STRAY];
  }

  /** It is read back as the callout and the first paragraph. */
  lemma MarksRead(layer: string)
    ensures Parse(Render(Stored(layer)), layer) == Lead2(Unit(Callout, TAKEN, layer), First(layer))
  {
    hide Parse, Render, Stripped, ClassOf, IsCallout, UnitOk, Closed, HeadOk, OpenBody, FirstUnit, PrintedLines,
         Tailed, IsTitle;
    MarksPrinted(layer);
    PrintedStart(Stored(layer), layer);
    TakenIsCallout();
    StrayCalloutNoTitle();
    UnitsAre(layer);
    CalloutThen(TAKEN, First(layer), layer);
  }

  /** A text of a whole callout and one unit right after it. */
  lemma CalloutThen(taken: seq<Line>, u: Unit, layer: string)
    requires taken != [] && IsCallout(taken, true) && UnitOk(u, layer) && Closed(u) && u.kind == Paragraph
    requires Stripped(taken + u.lines) && !IsTitle(taken[0])
    ensures Parse(taken + u.lines + [""], layer) == Lead2(Unit(Callout, taken, layer), u)
  {
    hide Parse, EatAll, Flush, Finish, Stripped, IsCallout, UnitOk, Closed, IsTitle;
    var c := Unit(Callout, taken, layer);
    ParsePlain(taken + u.lines, layer);
    CleanStart(layer);
    EatCallout(Clean(START), taken, layer);
    EatAppends(Clean(START), taken, u.lines, layer);
    UnitEaten(AddUnit(START, c), u, layer);
    OneSection(c, u);
    KeepOf([Section(None, [c, u])]);
  }

  lemma CleanStart(layer: string)
    ensures Flush(Clean(START), layer).sections == START
  {
  }

  lemma OneSection(a: Unit, b: Unit)
    ensures AddUnit(AddUnit(START, a), b) == [Section(None, [a, b])]
  {
    assert START[..0] == [] && [] + [a] == [a] && [a] + [b] == [a, b];
  }

  // ---- what a reader sees -----------------------------------------------------------------------------

  lemma MarksFused(names: Names, layer: string, got: seq<Unit>, key: SectionKey)
    requires layer != PUBLIC && names.unit(TAKEN) == names.unit(LATER) && DistinctKeys(names, got)
    requires var all := if key == None then [Unit(Callout, TAKEN, layer), First(layer)] else [];
             (forall u :: u in all ==> Shows(names, got, u, key == Some(CONNECTIONS)))
               && (forall u :: u in got ==> u in all)
    ensures FusedOk(names, [], if key == None then [First(PUBLIC), Second(PUBLIC)]
                    else [], {}, layer, got, key == Some(CONNECTIONS))
  {
    if key == None {
      var all, b := [Unit(Callout, TAKEN, layer), First(layer)], [First(PUBLIC), Second(PUBLIC)];
      assert all[0] in all && all[1] in all;
      assert KeyOf(names, b[0]) == KeyOf(names, all[1]) && KeyOf(names, b[1]) == KeyOf(names, all[0]);
    }
  }

  lemma MarksUnder(names: Names, layer: string, key: SectionKey)
    ensures Gather(names, Parse(NOTHING, PUBLIC).sections, key) == []
            && Known(names, Parse(NOTHING, PUBLIC).sections) == {}
    ensures Gather(names, Parse(MARKS, PUBLIC).sections, key) == if key == None then [First(PUBLIC), Second(PUBLIC)]
            else []
    ensures Gather(names, Parse(Split(names, MARKS, NOTHING), layer).sections, key) ==
            if key == None then [Unit(Callout, TAKEN, layer), First(layer)] else []
  {
    hide Parse, Gather, SplitBody, Render;
    NothingParses();
    NoSections(names, key);
    MarksParse();
    MarksLeft(names);
    MarksRead(layer);
    assert Relabel([First(PUBLIC), Second(PUBLIC)], layer) == [First(layer), Second(layer)];
    assert Marked(Stored(PUBLIC), layer).sections == Stored(layer).sections;
    RelabeledText(Stored(PUBLIC), layer);
    LeadUnder(names, [First(PUBLIC), Second(PUBLIC)], key);
    LeadUnder(names, [Unit(Callout, TAKEN, layer), First(layer)], key);
  }

  lemma NoSections(names: Names, key: SectionKey)
    ensures Gather(names, [], key) == [] && Known(names, []) == {}
  {
  }

  lemma MarksStray()
    ensures var b := Stored(PUBLIC); StrayCallout(b) && !ReadsOn(b)
  {
    hide ClassOf, HeadOk, FirstUnit, PrintedLines, Tailed, Opens, IsTitle, NoneEnds;
    MarksPrinted(PUBLIC);
    StrayCalloutNoTitle();
    EndsWithin((TAKEN + [JOINED])[1..], 2);
  }

  lemma EndsWithin(lines: seq<Line>, k: nat)
    requires k < |lines| && lines[k] == CALLOUT_END
    ensures !NoneEnds(lines)
  {
  }

  lemma StrayCalloutNoTitle()
    ensures !IsTitle(BOTH)
  {
    JoinedIs();
  }

  /** Its two units have each key once, and it starts a stray callout with an end, so that it does not read on; and
      yet every key is shown, since what the callout takes in has the second unit's key, as it does when keys are
      words, and what comes after has the first's. */
  lemma CalloutMakesUp(names: Names, layer: string, key: SectionKey)
    requires layer != PUBLIC && names.unit(TAKEN) == names.unit(LATER) != names.unit([JOINED])
    ensures var rest := SplitBody(names, MARKS, NOTHING);
            NewOnce(names, MARKS, NOTHING) && StrayCallout(rest) && !ReadsOn(rest)
    ensures FusedAt(names, MARKS, NOTHING, layer, key)
  {
    MarksOnce(names);
    MarksSeen(names, layer, key);
  }

  lemma MarksOnce(names: Names)
    requires names.unit(LATER) != names.unit([JOINED])
    ensures var rest := SplitBody(names, MARKS, NOTHING);
            NewOnce(names, MARKS, NOTHING) && StrayCallout(rest) && !ReadsOn(rest)
  {
    hide Parse, ReadsOn, SplitBody, Gather, StrayCallout, NoRepeats;
    MarksLeft(names);
    LeadOnce(names, [First(PUBLIC), Second(PUBLIC)]);
    MarksStray();
  }

  lemma MarksSeen(names: Names, layer: string, key: SectionKey)
    requires layer != PUBLIC && names.unit(TAKEN) == names.unit(LATER)
    ensures FusedAt(names, MARKS, NOTHING, layer, key)
  {
    hide Parse, Seen, SplitBody, Split, Known, FusedOk, Shows, Gather, DistinctKeys;
    MarksUnder(names, layer, key);
    SeenIs(names, MARKS, NOTHING, layer, key);
    assert [] + [Unit(Callout, TAKEN, layer), First(layer)] == [Unit(Callout, TAKEN, layer), First(layer)];
    MarksFused(names, layer, Seen(names, MARKS, NOTHING, layer, key), key);
  }
}
