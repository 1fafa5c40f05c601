/** Printing a page body, and how printing and parsing undo each other. */
module BodyRender {
  import opened Options
  import opened Text
  import opened PageBodies

  // ---- the printer ------------------------------------------------------------------------------

  /** Consecutive items stand on adjacent lines; any other two units have an empty line between them. */
  function Gap(a: Unit, b: Unit): seq<Line> { if a.kind == Item && b.kind == Item then [] else [""] }

  /** A text that ends with unit `a`, and unit `b` after it. */
  function Follow(text: seq<Line>, a: Unit, b: Unit): seq<Line> { text + Gap(a, b) + b.lines }

  function UnitsText(units: seq<Unit>): seq<Line> {
    if units == [] then []
    else
      var n := |units| - 1;
      if n == 0 then units[0].lines else Follow(UnitsText(units[..n]), units[n - 1], units[n])
  }

  function SectionText(s: Section): seq<Line> {
    (if s.heading.Some? then [s.heading.value] else []) + UnitsText(s.units)
  }

  /** The texts of the sections that have units. */
  function Chunks(sections: seq<Section>): seq<seq<Line>> {
    if sections == [] then []
    else
      var n := |sections| - 1;
      Chunks(sections[..n]) + if sections[n].units == [] then [] else [SectionText(sections[n])]
  }

  function Join(parts: seq<seq<Line>>): seq<Line> {
    if parts == [] then []
    else
      var n := |parts| - 1;
      if n == 0 then parts[0] else Join(parts[..n]) + [""] + parts[n]
  }

  function BodyText(b: Body): seq<Line> {
    Join((if b.title == "" then [] else [[b.title]]) + Chunks(b.sections))
  }

  function StripHead(lines: seq<Line>): seq<Line> {
    if lines == [] then [] else if Blank(lines[0]) then StripHead(lines[1..]) else [DropSpaces(lines[0])] + lines[1..]
  }

  function StripTail(lines: seq<Line>): seq<Line> {
    if lines == [] then []
    else
      var n := |lines| - 1;
      if Blank(lines[n]) then StripTail(lines[..n]) else lines[..n] + [TrimEnd(lines[n])]
  }

  /** The text without white space at its edges, and a line feed. */
  function Render(b: Body): seq<Line> {
    var lines := BodyText(b);
    if lines == [] then [""]
    else
      var stripped := StripTail(StripHead(lines));
      (if stripped == [] then [""] else stripped) + [""]
  }

  // ---- the shape of parsed units ----------------------------------------------------------------

  /** Whether the text stands inside a fence after these lines. */
  function InFence(lines: seq<Line>): bool {
    lines != [] && InFence(lines[..|lines| - 1]) != IsFence(lines[|lines| - 1])
  }

  /** What may start a unit, and what may continue it outside a fence. */
  predicate MayStart(kind: Kind, line: Line) {
    if kind == Item then ClassOf(line) == StartsItem else ClassOf(line) in {Fences, Continues}
  }

  predicate MayContinue(kind: Kind, line: Line) {
    ClassOf(line) == Continues || (kind == Item && ClassOf(line) == Fences)
  }

  predicate Runs(kind: Kind, lines: seq<Line>) {
    && lines != []
    && var n := |lines| - 1;
       if n == 0 then MayStart(kind, lines[0])
       else Runs(kind, lines[..n]) && (InFence(lines[..n]) || MayContinue(kind, lines[n]))
  }

  predicate Closed(u: Unit) { if u.kind == Callout then IsCallout(u.lines, true) else !InFence(u.lines) }

  predicate UnitOk(u: Unit, layer: string) {
    && u.layer == layer && u.lines != [] && u.lines[|u.lines| - 1] != []
    && if u.kind == Callout then IsCallout(u.lines, true) || IsCallout(u.lines, false) else Runs(u.kind, u.lines)
  }

  predicate UnitsOk(units: seq<Unit>, layer: string) { forall k :: 0 <= k < |units| ==> UnitOk(units[k], layer) }

  predicate AllClosed(units: seq<Unit>) { forall k :: 0 <= k < |units| ==> Closed(units[k]) }

  predicate HeadingOk(heading: Option<Line>) {
    heading.Some? ==> ClassOf(heading.value) == Heads && TrimEnd(heading.value) == heading.value
  }

  predicate SectionOk(s: Section, layer: string) { HeadingOk(s.heading) && UnitsOk(s.units, layer) }

  predicate Whole(sections: seq<Section>, layer: string) {
    forall k :: 0 <= k < |sections| ==> SectionOk(sections[k], layer) && AllClosed(sections[k].units)
  }

  function Front<T>(s: seq<T>): seq<T> { if s == [] then [] else s[..|s| - 1] }

  /** Units are as the parser makes them, and only the very last may be left open. */
  predicate Sound(sections: seq<Section>, layer: string) {
    sections == [] ||
    var n := |sections| - 1;
    Whole(sections[..n], layer) && SectionOk(sections[n], layer) && AllClosed(Front(sections[n].units))
  }

  // ---- parsing one printed unit -----------------------------------------------------------------

  /** The parser has just these sections once it ends what it is reading, and may go on. */
  predicate Ready(s: State, sections: seq<Section>, layer: string)
  {
    s.sections != [] && s.mode == Open && Flush(s, layer) == Clean(sections)
  }

  lemma {:induction false} BlankDrops(t: string)
    requires forall i :: 0 <= i < |t| ==> IsSpace(t[i])
    ensures DropSpaces(t) == []
  {
    if t != [] { BlankDrops(t[1..]); }
  }

  lemma StartNotBlank(kind: Kind, line: Line)
    requires MayStart(kind, line)
    ensures !Blank(line)
  {
    if Blank(line) {
      BlankDrops(line);
    }
  }

  /** The parser's state while it reads a unit that is no callout. */
  function Reading(sections: seq<Section>, kind: Kind, lines: seq<Line>): State {
    State(sections, lines, kind, if InFence(lines) then Fenced else Open)
  }

  lemma EatFirst(sections: seq<Section>, kind: Kind, line: Line, layer: string)
    requires sections != [] && kind != Callout && MayStart(kind, line)
    ensures Eat(Clean(sections), line, layer) == Reading(sections, kind, [line])
  {
    assert [line][..|[line]| - 1] == [];
    assert InFence([line]) == IsFence(line);
    assert Clean(sections).current + [line] == [line];
  }

  lemma EatRunOne(sections: seq<Section>, kind: Kind, line: Line, layer: string)
    requires sections != [] && kind != Callout && MayStart(kind, line)
    ensures EatAll(Clean(sections), [line], layer) == Reading(sections, kind, [line])
  {
    EatOne(Clean(sections), line, layer);
    EatFirst(sections, kind, line, layer);
  }

  lemma EatRunMore(sections: seq<Section>, kind: Kind, lines: seq<Line>, line: Line, layer: string)
    requires sections != [] && kind != Callout && lines != [] && (InFence(lines) || MayContinue(kind, line))
    requires EatAll(Clean(sections), lines, layer) == Reading(sections, kind, lines)
    ensures EatAll(Clean(sections), lines + [line], layer) == Reading(sections, kind, lines + [line])
  {
    EatOn(Reading(sections, kind, lines), line, layer);
    assert (lines + [line])[..|lines|] == lines;
  }

  lemma {:induction false} EatRun(sections: seq<Section>, kind: Kind, lines: seq<Line>, layer: string)
    requires sections != [] && kind != Callout && Runs(kind, lines)
    ensures EatAll(Clean(sections), lines, layer) == Reading(sections, kind, lines)
  {
    var n := |lines| - 1;
    assert lines == lines[..n] + [lines[n]];
    if n == 0 {
      assert lines == [lines[0]];
      EatRunOne(sections, kind, lines[0], layer);
    } else {
      EatRun(sections, kind, lines[..n], layer);
      EatRunMore(sections, kind, lines[..n], lines[n], layer);
    }
  }

  lemma EatOn(s: State, line: Line, layer: string)
    requires s.sections != [] && s.current != [] && s.kind != Callout && s.mode != InCallout
    requires s.mode == Fenced || MayContinue(s.kind, line)
    ensures Eat(s, line, layer) ==
            s.(current := s.current + [line], mode := if (s.mode == Fenced) != IsFence(line) then Fenced else Open)
  {
  }

  lemma {:induction false} FirstNotBlank(kind: Kind, lines: seq<Line>)
    requires Runs(kind, lines)
    ensures !Blank(lines[0])
  {
    var n := |lines| - 1;
    if n == 0 { StartNotBlank(kind, lines[0]); } else { FirstNotBlank(kind, lines[..n]); }
  }

  lemma FlushRun(s: State, layer: string)
    requires s.sections != [] && Runs(s.kind, s.current) && s.current[|s.current| - 1] != []
    ensures Flush(s, layer) == Clean(AddUnit(s.sections, Unit(s.kind, s.current, layer)))
  {
    FirstNotBlank(s.kind, s.current);
    assert TrimEmpty(s.current) == s.current;
  }

  /** A printed unit parses as that unit. */
  lemma UnitEaten(sections: seq<Section>, u: Unit, layer: string)
    requires sections != [] && UnitOk(u, layer)
    ensures var s := EatAll(Clean(sections), u.lines, layer);
            Finish(s, layer) == AddUnit(sections, u) && (Closed(u) ==> Ready(s, AddUnit(sections, u), layer))
  {
    if u.kind == Callout {
      if IsCallout(u.lines, true) {
        EatCallout(Clean(sections), u.lines, layer);
      } else {
        EatOpenCallout(Clean(sections), u.lines, layer);
      }
    } else {
      EatRun(sections, u.kind, u.lines, layer);
      var s := EatAll(Clean(sections), u.lines, layer);
      FlushRun(s, layer);
    }
  }

  // ---- parsing printed units one after another ----------------------------------------------------

  function AddUnits(sections: seq<Section>, units: seq<Unit>): (r: seq<Section>)
    requires sections != []
    ensures |r| == |sections|
  {
    var last := sections[|sections| - 1];
    sections[..|sections| - 1] + [last.(units := last.units + units)]
  }

  lemma EmptyEaten(s: State, sections: seq<Section>, layer: string)
    requires Ready(s, sections, layer)
    ensures EatAll(s, [""], layer) == Clean(sections)
  {
    EatOne(s, "", layer);
  }

  lemma {:induction false} FirstStarts(lines: seq<Line>)
    requires Runs(Item, lines)
    ensures ClassOf(lines[0]) == StartsItem
  {
    if |lines| > 1 { FirstStarts(lines[..|lines| - 1]); }
  }

  lemma ItemFlushes(s: State, sections: seq<Section>, line: Line, layer: string)
    requires Ready(s, sections, layer) && sections != [] && ClassOf(line) == StartsItem
    ensures EatAll(s, [line], layer) == EatAll(Clean(sections), [line], layer)
  {
    EatOne(s, line, layer);
    EatOne(Clean(sections), line, layer);
  }

  lemma NextItem(s: State, sections: seq<Section>, b: Unit, layer: string)
    requires Ready(s, sections, layer) && sections != [] && UnitOk(b, layer) && b.kind == Item
    ensures EatAll(s, b.lines, layer) == EatAll(Clean(sections), b.lines, layer)
  {
    var first := [b.lines[0]];
    FirstStarts(b.lines);
    ItemFlushes(s, sections, b.lines[0], layer);
    EatAppends(s, first, b.lines[1..], layer);
    EatAppends(Clean(sections), first, b.lines[1..], layer);
    assert first + b.lines[1..] == b.lines;
  }

  /** After a closed unit and the gap, the next unit is read as if it came first. */
  lemma NextUnit(s: State, sections: seq<Section>, a: Unit, b: Unit, layer: string)
    requires Ready(s, sections, layer) && sections != [] && UnitOk(b, layer)
    ensures EatAll(s, Gap(a, b) + b.lines, layer) == EatAll(Clean(sections), b.lines, layer)
  {
    if Gap(a, b) == [] {
      assert Gap(a, b) + b.lines == b.lines;
      NextItem(s, sections, b, layer);
    } else {
      EmptyEaten(s, sections, layer);
      EatAppends(s, [""], b.lines, layer);
    }
  }

  /** `s` ends with just these sections, and if nothing is left open it is ready to go on. */
  predicate Reached(s: State, sections: seq<Section>, closed: bool, layer: string) {
    s.sections != [] && Finish(s, layer) == sections && (closed ==> Ready(s, sections, layer))
  }

  lemma AddOneMore(sections: seq<Section>, units: seq<Unit>, unit: Unit)
    requires sections != []
    ensures AddUnit(AddUnits(sections, units), unit) == AddUnits(sections, units + [unit])
    ensures AddUnits(sections, [unit]) == AddUnit(sections, unit)
  {
    assert sections[|sections| - 1].units + units + [unit] == sections[|sections| - 1].units + (units + [unit]);
  }

  /** One more printed unit after text that is read to the end. */
  lemma OneMoreUnit(start: State, text: seq<Line>, sections: seq<Section>, a: Unit, b: Unit, layer: string)
    requires start.sections != [] && sections != [] && UnitOk(b, layer)
    requires Ready(EatAll(start, text, layer), sections, layer)
    ensures Reached(EatAll(start, Follow(text, a, b), layer), AddUnit(sections, b), Closed(b), layer)
  {
    hide EatAll, Ready, Flush, Finish, AddUnit, UnitOk, Closed, Gap;
    NextUnit(EatAll(start, text, layer), sections, a, b, layer);
    UnitEaten(sections, b, layer);
    EatAppends(start, text, Gap(a, b) + b.lines, layer);
    assert text + Gap(a, b) + b.lines == text + (Gap(a, b) + b.lines);
  }

  lemma FrontOk(units: seq<Unit>, layer: string)
    requires |units| > 1 && UnitsOk(units, layer) && AllClosed(Front(units))
    ensures var n := |units| - 1;
            UnitsOk(units[..n], layer) && AllClosed(Front(units[..n])) && Closed(units[..n][n - 1])
              && units[..n][n - 1] == units[n - 1]
  {
    var n := |units| - 1;
    assert Front(units) == units[..n];
    forall k | 0 <= k < n - 1 ensures Closed(Front(units[..n])[k]) { assert Front(units[..n])[k] == units[..n][k]; }
  }

  /** The printed units are read back, added to the last section. */
  predicate ReadsUnits(sections: seq<Section>, units: seq<Unit>, layer: string)
    requires sections != [] && units != []
  {
    Reached(EatAll(Clean(sections), UnitsText(units), layer), AddUnits(sections, units),
            Closed(units[|units| - 1]), layer)
  }

  lemma ReadsOne(sections: seq<Section>, u: Unit, layer: string)
    requires sections != [] && UnitOk(u, layer)
    ensures ReadsUnits(sections, [u], layer)
  {
    UnitEaten(sections, u, layer);
    AddOneMore(sections, [], u);
  }

  lemma LastText(units: seq<Unit>)
    requires |units| > 1
    ensures var n := |units| - 1; UnitsText(units) == Follow(UnitsText(units[..n]), units[n - 1], units[n])
  {
    hide Follow;
  }

  lemma LastUnit(sections: seq<Section>, units: seq<Unit>)
    requires sections != [] && |units| > 1
    ensures var n := |units| - 1;
            && UnitsText(units) == Follow(UnitsText(units[..n]), units[n - 1], units[n])
            && AddUnits(sections, units) == AddUnit(AddUnits(sections, units[..n]), units[n])
            && units[..n][n - 1] == units[n - 1]
  {
    hide Follow, UnitsText, AddUnits, AddUnit;
    var n := |units| - 1;
    LastText(units);
    AddOneMore(sections, units[..n], units[n]);
    assert units == units[..n] + [units[n]];
  }

  lemma ReadsOneMore(sections: seq<Section>, units: seq<Unit>, layer: string)
    requires sections != [] && |units| > 1 && UnitOk(units[|units| - 1], layer)
    requires ReadsUnits(sections, units[..|units| - 1], layer) && Closed(units[..|units| - 1][|units| - 2])
    ensures ReadsUnits(sections, units, layer)
  {
    var n := |units| - 1;
    LastUnit(sections, units);
    OneMoreUnit(Clean(sections), UnitsText(units[..n]), AddUnits(sections, units[..n]), units[n - 1], units[n], layer);
  }

  lemma {:induction false} UnitsEaten(sections: seq<Section>, units: seq<Unit>, layer: string)
    requires sections != [] && units != [] && UnitsOk(units, layer) && AllClosed(Front(units))
    ensures ReadsUnits(sections, units, layer)
  {
    var n := |units| - 1;
    assert UnitOk(units[n], layer);
    if n == 0 {
      ReadsOne(sections, units[0], layer);
      assert units == [units[0]];
    } else {
      FrontOk(units, layer);
      UnitsEaten(sections, units[..n], layer);
      ReadsOneMore(sections, units, layer);
    }
  }

  // ---- parsing printed sections ---------------------------------------------------------------------

  /** Where the parser puts a section it reads: units without a heading join the section before them. */
  function Hold(sections: seq<Section>, s: Section): (r: seq<Section>)
    requires sections != []
    ensures r != []
  {
    if s.heading.Some? then sections + [s] else AddUnits(sections, s.units)
  }

  lemma HeadingEaten(sections: seq<Section>, heading: Line, layer: string)
    requires sections != [] && HeadingOk(Some(heading))
    ensures EatAll(Clean(sections), [heading], layer) == Clean(sections + [Section(Some(heading), [])])
  {
    EatOne(Clean(sections), heading, layer);
  }

  lemma HeadedText(sections: seq<Section>, s: Section, layer: string)
    requires sections != [] && HeadingOk(s.heading) && s.heading.Some?
    ensures EatAll(Clean(sections), SectionText(s), layer) ==
            EatAll(Clean(sections + [Section(s.heading, [])]), UnitsText(s.units), layer)
  {
    HeadingEaten(sections, s.heading.value, layer);
    EatAppends(Clean(sections), [s.heading.value], UnitsText(s.units), layer);
  }

  lemma HeadedHold(sections: seq<Section>, s: Section)
    requires s.heading.Some?
    ensures AddUnits(sections + [Section(s.heading, [])], s.units) == sections + [s]
  {
    assert [] + s.units == s.units;
  }

  lemma SectionEaten(sections: seq<Section>, s: Section, layer: string)
    requires sections != [] && SectionOk(s, layer) && s.units != [] && AllClosed(Front(s.units))
    ensures Reached(EatAll(Clean(sections), SectionText(s), layer), Hold(sections, s),
                    Closed(s.units[|s.units| - 1]), layer)
  {
    if s.heading.Some? {
      HeadedText(sections, s, layer);
      HeadedHold(sections, s);
      UnitsEaten(sections + [Section(s.heading, [])], s.units, layer);
    } else {
      UnitsEaten(sections, s.units, layer);
      assert SectionText(s) == UnitsText(s.units);
    }
  }

  lemma AfterEmpty(start: State, text: seq<Line>, sections: seq<Section>, part: seq<Line>, layer: string)
    requires start.sections != [] && sections != [] && Ready(EatAll(start, text, layer), sections, layer)
    ensures EatAll(start, text + [""] + part, layer) == EatAll(Clean(sections), part, layer)
  {
    EmptyEaten(EatAll(start, text, layer), sections, layer);
    EatAppends(start, text, [""], layer);
    EatAppends(start, text + [""], part, layer);
  }

  /** One more printed section after text that is read to the end. */
  lemma OneMoreSection(start: State, text: seq<Line>, sections: seq<Section>, s: Section, layer: string)
    requires start.sections != [] && sections != [] && Ready(EatAll(start, text, layer), sections, layer)
    requires SectionOk(s, layer) && s.units != [] && AllClosed(Front(s.units))
    ensures Reached(EatAll(start, text + [""] + SectionText(s), layer), Hold(sections, s),
                    Closed(s.units[|s.units| - 1]), layer)
  {
    AfterEmpty(start, text, sections, SectionText(s), layer);
    SectionEaten(sections, s, layer);
  }

  function HoldAll(sections: seq<Section>): (r: seq<Section>)
    ensures r != []
  {
    if sections == [] then START
    else
      var n := |sections| - 1;
      var before := HoldAll(sections[..n]);
      if sections[n].units == [] then before else Hold(before, sections[n])
  }

  lemma WholeIsSound(sections: seq<Section>, layer: string)
    requires Whole(sections, layer)
    ensures Sound(sections, layer)
  {
  }

  lemma ClosedOneMore(units: seq<Unit>)
    requires AllClosed(Front(units))
    ensures AllClosed(units) <==> units == [] || Closed(units[|units| - 1])
  {
    if units != [] {
      forall k | 0 <= k < |units| - 1 ensures Closed(units[k]) { assert Front(units)[k] == units[k]; }
    }
  }

  lemma WholeSnoc(front: seq<Section>, last: Section, layer: string)
    ensures Whole(front + [last], layer) <==> Whole(front, layer) && SectionOk(last, layer) && AllClosed(last.units)
  {
    var all := front + [last];
    assert all[|front|] == last;
    if Whole(all, layer) {
      forall k | 0 <= k < |front| ensures SectionOk(front[k], layer) && AllClosed(front[k].units) {
        assert all[k] == front[k];
      }
    }
    if Whole(front, layer) && SectionOk(last, layer) && AllClosed(last.units) {
      forall k | 0 <= k < |all| ensures SectionOk(all[k], layer) && AllClosed(all[k].units) {
        assert k < |front| ==> all[k] == front[k];
      }
    }
  }

  lemma WholeOneMore(sections: seq<Section>, layer: string)
    requires Sound(sections, layer) && sections != []
    ensures var last := sections[|sections| - 1];
            Whole(sections, layer) <==> last.units == [] || Closed(last.units[|last.units| - 1])
  {
    var n := |sections| - 1;
    ClosedOneMore(sections[n].units);
    WholeSnoc(sections[..n], sections[n], layer);
    assert sections == sections[..n] + [sections[n]];
  }

  lemma ChunksOneMore(sections: seq<Section>)
    requires sections != []
    ensures var n := |sections| - 1;
            var before := Chunks(sections[..n]);
            if sections[n].units == [] then Chunks(sections) == before
            else Join(Chunks(sections)) == if before == [] then SectionText(sections[n])
            else Join(before) + [""] + SectionText(sections[n])
  {
    var n := |sections| - 1;
    if sections[n].units != [] {
      var before := Chunks(sections[..n]);
      assert (before + [SectionText(sections[n])])[..|before|] == before;
    }
  }

  lemma {:induction false} NoChunks(sections: seq<Section>)
    requires Chunks(sections) == []
    ensures HoldAll(sections) == START
  {
    if sections != [] { NoChunks(sections[..|sections| - 1]); }
  }

  /** Printed sections parse as themselves, up to where the parser puts units without a heading. */
  lemma {:induction false} SectionsEaten(sections: seq<Section>, layer: string)
    requires Sound(sections, layer)
    ensures Reached(EatAll(Clean(START), Join(Chunks(sections)), layer), HoldAll(sections),
                    Whole(sections, layer), layer)
  {
    if sections != [] {
      var n := |sections| - 1;
      var last, before := sections[n], sections[..n];
      WholeIsSound(before, layer);
      SectionsEaten(before, layer);
      WholeOneMore(sections, layer);
      ChunksOneMore(sections);
      if last.units != [] {
        if Chunks(before) == [] {
          NoChunks(before);
          SectionEaten(START, last, layer);
        } else {
          OneMoreSection(Clean(START), Join(Chunks(before)), HoldAll(before), last, layer);
        }
      }
    }
  }
}
