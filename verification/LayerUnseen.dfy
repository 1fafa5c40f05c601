/** When a reader misses what a layer adds: exactly when the stored text does not read on. */
module LayerUnseen {
  import opened Options
  import opened Text
  import opened PageBodies
  import opened BodyRender
  import opened BodyParse
  import opened BodyRoundTrip
  import opened BodyNormal
  import opened BodyEdges
  import opened BodyReadBack
  import opened BodyLost
  import opened LayerPages
  import opened LayerFacts
  import opened LayerSections
  import opened LayerSplit
  import opened LayerStored
  import opened LayerFuse

  // ---- a key no longer there ------------------------------------------------------------------------

  lemma PublicKnown(names: Names, p: seq<Section>, key: SectionKey, k: string)
    requires HasKey(names, Gather(names, p, key), k)
    ensures k in Known(names, p)
  {
    var units := Gather(names, p, key);
    var i :| 0 <= i < |units| && KeyOf(names, units[i]) == k;
    GatherKnown(names, p, key, units[i]);
  }

  lemma KeyOfEither(names: Names, got: seq<Unit>, p: seq<Unit>, s: seq<Unit>, k: string)
    requires HasKey(names, got, k) && forall u :: u in got ==> u in p + s
    ensures HasKey(names, p, k) || HasKey(names, s, k)
  {
    var i :| 0 <= i < |got| && KeyOf(names, got[i]) == k;
    assert got[i] in got;
    var j :| 0 <= j < |p + s| && (p + s)[j] == got[i];
    if j < |p| { assert p[j] == got[i]; } else { assert s[j - |p|] == got[i]; }
  }

  /** A unit the layer adds that nothing stored under its heading has the key of is not seen. */
  lemma NotSeen(names: Names, text: seq<Line>, public: seq<Line>, layer: string, key: SectionKey, u: Unit)
    requires u in Gather(names, Parse(text, PUBLIC).sections, key)
             && KeyOf(names, u) !in Known(names, Parse(public, PUBLIC).sections)
    requires LinkOf(names, u, key == Some(CONNECTIONS)).None?
    requires !HasKey(names, Gather(names, Parse(Split(names, text, public), layer).sections, key), KeyOf(names, u))
    ensures !FusedAt(names, text, public, layer, key)
  {
    hide Parse, Seen, Split, Known;
    var got := Seen(names, text, public, layer, key);
    SeenIs(names, text, public, layer, key);
    if HasKey(names, got, KeyOf(names, u)) {
      KeyOfEither(names, got, Gather(names, Parse(public, PUBLIC).sections, key),
                  Gather(names, Parse(Split(names, text, public), layer).sections, key), KeyOf(names, u));
      PublicKnown(names, Parse(public, PUBLIC).sections, key, KeyOf(names, u));
    }
  }

  /** What is left under a heading is the body's, and not known. */
  lemma LeftIs(names: Names, text: seq<Line>, public: seq<Line>, key: SectionKey, u: Unit)
    requires u in Gather(names, SplitBody(names, text, public).sections, key)
    ensures u in Gather(names, Parse(text, PUBLIC).sections, key)
            && KeyOf(names, u) !in Known(names, Parse(public, PUBLIC).sections)
  {
    hide Parse;
    var sections, known := Parse(text, PUBLIC).sections, Known(names, Parse(public, PUBLIC).sections);
    GatherRest(names, sections, known, key);
    WithoutIs(names, Gather(names, sections, key), known, u);
  }

  // ---- no repeats -----------------------------------------------------------------------------------

  /** No two units left under one heading have the same key. */
  ghost predicate NoRepeats(names: Names, rest: Body) {
    forall key :: DistinctKeys(names, Gather(names, rest.sections, key))
  }

  /** Text before or after a text makes another key. */
  ghost predicate Wordier(names: Names) {
    Wordy(names) && forall a: seq<Line>, b: seq<Line> :: HasText(a) ==> names.unit(a + b) != names.unit(b)
  }

  lemma WordierIsWordy(names: Names)
    requires Wordier(names)
    ensures Wordy(names)
  {
  }

  predicate Bracket(lines: seq<Line>) { exists k, i :: 0 <= k < |lines| && 0 <= i < |lines[k]| && lines[k][i] == '[' }

  /** A link has a bracket. */
  ghost predicate Linked(names: Names) { forall lines: seq<Line> :: names.target(lines).Some? ==> Bracket(lines) }

  /** Read back, a body has lost a unit: nothing under its heading has its key. */
  ghost predicate Loses(names: Names, back: Body, b: Body, key: SectionKey, u: Unit) {
    && u in Gather(names, b.sections, key) && LinkOf(names, u, key == Some(CONNECTIONS)).None?
    && !HasKey(names, Gather(names, back.sections, key), KeyOf(names, u))
  }

  /** The text starts with a line that, stripped, starts a callout that is not just its unit, and some later line
      ends one. */
  predicate StrayCallout(b: Body) {
    && b.sections != [] && LastUnits(b) != [] && Opens(Tailed(b)) && !HeadOk(Tailed(b))
    && FirstUnit(b).kind == Callout && !IsTitle(FirstUnit(b).lines[0])
    && PrintedLines(b) != [] && !NoneEnds(PrintedLines(b)[1..])
  }

  // ---- a first line read as the start of a callout without an end ---------------------------------------

  /** It takes in the whole text. */
  lemma OpenCalloutParses(text: seq<Line>, layer: string)
    requires text != [] && Stripped(text) && IsCallout(text, false)
    ensures Parse(text + [""], layer) == Body("", [Section(None, [Unit(Callout, text, layer)])])
  {
    hide EatAll, Stripped, IsCallout;
    CalloutNoTitle(text);
    ParsePlain(text, layer);
    EatOpenCallout(Clean(START), text, layer);
    assert Flush(Clean(START), layer).sections == START;
    FinishCallout(START, text, layer);
    AddOneMore(START, [], Unit(Callout, text, layer));
    assert START[..0] == [] && [] + [Unit(Callout, text, layer)] == [Unit(Callout, text, layer)];
    assert ParseFrom(text, layer) == [Section(None, [Unit(Callout, text, layer)])];
    KeepOf(ParseFrom(text, layer));
  }

  lemma CalloutNoTitle(text: seq<Line>)
    requires IsCallout(text, false)
    ensures text != [] && !IsTitle(text[0])
  {
    assert text[0][0] == '<';
  }

  lemma OpenCalloutLoses(names: Names, b: Body, layer: string)
    requires EdgeBlind(names) && Wordy(names) && OpenBody(b, layer) && !IsTitle(FirstUnit(b).lines[0])
    requires FirstUnit(b).kind == Callout && !HeadOk(Tailed(b)) && PrintedLines(b) != []
             && NoneEnds(PrintedLines(b)[1..])
    ensures b.sections[0].units != [] && Loses(names, Parse(Render(b), layer), b, None, b.sections[0].units[0])
  {
    hide Parse, Render, Tailed, HeadUnit, EdgeBlind, Wordy, FirstUnit, PrintedLines, Stripped, HeadOk, Sound;
    var text, m := PrintedLines(b), |FirstUnit(b).lines|;
    PrintedStart(b, layer);
    StartsIt(b);
    OpenCalloutParses(text, layer);
    var e := CalloutLost(b, layer);
    assert e == |text| && text[..e] == text;
    CalloutKeyDiffers(names, text, m, e);
    FirstKeyFor(names, b, layer);
    LeadOf(names, b.sections);
    GatherSingle(names, Section(None, [Unit(Callout, text, layer)]));
  }

  // ---- a first line read as a heading -----------------------------------------------------------------

  lemma HeadingLoses(names: Names, b: Body, layer: string)
    requires EdgeBlind(names) && OpenBody(b, layer) && !IsTitle(FirstUnit(b).lines[0])
             && ClassOf(FirstUnit(b).lines[0]) == Heads
    ensures b.sections[0].units != [] && Loses(names, Parse(Render(b), layer), b, None, b.sections[0].units[0])
  {
    hide Parse, Render, Tailed, HeadUnit, EdgeBlind, FirstUnit, PrintedLines, ClassOf;
    HeadingLost(b, layer);
    FirstKeyFor(names, b, layer);
    NoLead(names, Parse(Render(b), layer).sections);
    LeadOf(names, b.sections);
  }

  // ---- a first line read as a title -------------------------------------------------------------------

  /** What is left of the first unit, and the units after it. */
  function AfterTitle(b: Body): seq<Section>
    requires Opens(b)
  {
    var units := b.sections[0].units;
    (if units[0].lines[1..] == [] then [] else [Section(None, [Unit(Paragraph, units[0].lines[1..], units[0].layer)])])
      + Behind(b)
  }

  lemma {:induction false} AllContinue(lines: seq<Line>)
    requires lines != [] && forall k :: 0 <= k < |lines| ==> ClassOf(lines[k]) == Continues
    ensures Runs(Paragraph, lines) && !InFence(lines)
  {
    var n := |lines| - 1;
    assert ClassOf(lines[n]) == Continues && !IsFence(lines[n]);
    if n == 0 {
      assert lines[..0] == [];
    } else {
      AllContinue(lines[..n]);
    }
  }

  lemma RunsAfter(lines: seq<Line>)
    requires Runs(Paragraph, lines) && !IsFence(lines[0]) && |lines| > 1
    ensures Runs(Paragraph, lines[1..]) && !InFence(lines[1..])
  {
    hide ClassOf, Runs, InFence;
    forall k | 0 <= k < |lines[1..]| ensures ClassOf(lines[1..][k]) == Continues { PlainLines(lines, k + 1); }
    AllContinue(lines[1..]);
  }

  lemma TitleNoFence(line: Line)
    requires ClassOf(line) in {Fences, Continues} && IsTitle(DropSpaces(line))
    ensures !IsFence(line)
  {
    FenceEdges(line);
    var first := DropSpaces(line);
    assert first[0] == '#';
    NotFence(first);
  }

  lemma AfterTitleSound(b: Body, layer: string)
    requires Opens(b) && Sound(b.sections, layer) && IsTitle(DropSpaces(b.sections[0].units[0].lines[0]))
    ensures Sound(AfterTitle(b), layer)
  {
    hide Sound, UnitOk, Closed, Behind, IsTitle, DropSpaces;
    var units := b.sections[0].units;
    var left := Unit(Paragraph, units[0].lines[1..], units[0].layer);
    BehindSound(b, layer);
    FirstIsOk(b, layer);
    if left.lines == [] {
      assert AfterTitle(b) == Behind(b);
    } else {
      LeftOk(units[0], layer);
      SoundBefore(Section(None, [left]), Behind(b), layer);
    }
  }

  lemma FirstIsOk(b: Body, layer: string)
    requires Opens(b) && Sound(b.sections, layer)
    ensures UnitOk(b.sections[0].units[0], layer)
  {
    SoundHeading(b.sections, 0, layer);
  }

  lemma LeftOk(u: Unit, layer: string)
    requires UnitOk(u, layer) && u.kind == Paragraph && |u.lines| > 1 && IsTitle(DropSpaces(u.lines[0]))
    ensures var left := Unit(Paragraph, u.lines[1..], u.layer); UnitOk(left, layer) && Closed(left)
  {
    hide ClassOf, IsCallout;
    RunsPrefix(Paragraph, u.lines, 0);
    TitleNoFence(u.lines[0]);
    RunsAfter(u.lines);
  }

  lemma PrintedAs(b: Body)
    requires LastUnits(b) != [] && Opens(Tailed(b))
    ensures var t := Tailed(b);
            PrintedLines(b) == FirstUnit(b).lines + AfterFirst(t.sections[0].units[1..], t.sections[1..])
  {
    hide Tailed, HeadUnit, Join, Chunks, UnitsText;
    var t := Tailed(b);
    TextOf(Parted(t));
    PartedText(FirstUnit(b), t.sections[0].units[1..], t.sections[1..]);
  }

  lemma AfterTitleRead(t: Body, text: seq<Line>, layer: string)
    requires Opens(t) && Sound(t.sections, layer) && NoneEmpty(t.sections[1..]) && text != []
    requires var units := t.sections[0].units;
             text == HeadUnit(units[0]).lines + AfterFirst(units[1..], t.sections[1..])
    requires IsTitle(HeadUnit(t.sections[0].units[0]).lines[0])
    ensures Keep(ParseFrom(text[1..], layer)) == Settle(AfterTitle(t))
  {
    hide HeadUnit, ParseFrom, Keep, Settle, Join, Chunks, UnitsText, Sound, AfterTitle, AfterFirst;
    HeadLines(t.sections[0].units[0]);
    AfterTitleSound(t, layer);
    SectionsParse(AfterTitle(t), layer);
    AfterTitleText(t, text);
    if text[1..] == [] && AfterTitle(t) == [] {
      LeadOnly(text[1..], layer);
      NothingSettles();
    }
  }

  lemma NothingSettles()
    ensures Settle([]) == []
  {
  }

  lemma TitledRest(b: Body, layer: string)
    requires OpenBody(b, layer) && IsTitle(FirstUnit(b).lines[0])
    ensures Parse(Render(b), layer).sections == Settle(AfterTitle(Tailed(b)))
  {
    hide Parse, Render, Tailed, HeadUnit, ParseFrom, Keep, Settle, Stripped, Sound, AfterTitle, PrintedLines,
         AfterFirst;
    PrintedStart(b, layer);
    ParsePlain(PrintedLines(b), layer);
    TailedSound(b, layer);
    TailedHeaded(b);
    PrintedAs(b);
    AfterTitleRead(Tailed(b), PrintedLines(b), layer);
  }

  lemma HeadLines(u: Unit)
    requires u.lines != []
    ensures HeadUnit(u).lines == [DropSpaces(u.lines[0])] + u.lines[1..]
  {
  }

  lemma TextAfterTitle(t: Body, text: seq<Line>)
    requires Opens(t)
    requires var units := t.sections[0].units;
             text == HeadUnit(units[0]).lines + AfterFirst(units[1..], t.sections[1..])
    ensures var units := t.sections[0].units;
            text != [] && text[1..] == units[0].lines[1..] + AfterFirst(units[1..], t.sections[1..])
  {
    hide HeadUnit, AfterFirst;
    HeadLines(t.sections[0].units[0]);
  }

  /** The lines after the title, with or without the empty line before them. */
  lemma AfterTitleText(t: Body, text: seq<Line>)
    requires Opens(t) && NoneEmpty(t.sections[1..])
    requires var units := t.sections[0].units;
             text == HeadUnit(units[0]).lines + AfterFirst(units[1..], t.sections[1..])
    ensures var after := Join(Chunks(AfterTitle(t)));
            text != [] && (text[1..] == after || text[1..] == [""] + after || (text[1..] == [] && AfterTitle(t) == []))
  {
    hide HeadUnit, Join, Chunks, UnitsText, AfterFirst;
    var units, rest := t.sections[0].units, t.sections[1..];
    var r, more := units[0].lines[1..], units[1..];
    TextAfterTitle(t, text);
    if r != [] {
      var left := Unit(Paragraph, r, units[0].layer);
      PartedText(left, more, rest);
      assert AfterTitle(t) == [Section(None, [left])] + (if more == [] then [] else [Section(None, more)]) + rest;
    } else {
      assert r + AfterFirst(more, rest) == AfterFirst(more, rest);
      JoinMore(more, rest);
      assert AfterTitle(t) == Behind(t);
    }
  }

  lemma JoinMore(more: seq<Unit>, rest: seq<Section>)
    requires NoneEmpty(rest)
    ensures var tail := (if more == [] then [] else [Section(None, more)]) + rest;
            AfterFirst(more, rest) == if tail == [] then [] else [""] + Join(Chunks(tail))
  {
    hide Join, UnitsText, SectionText, Chunks;
    if more == [] {
      assert [] + rest == rest;
      assert AfterFirst(more, rest) == MoreSections(rest);
      if rest == [] { NoChunksOfNone(); } else { SomeChunks(rest); }
    } else {
      ChunksFirst(Section(None, more), rest);
      HeadlessText(more);
      SectionThenRest(UnitsText(more), rest);
      Regroup([""], UnitsText(more), MoreSections(rest));
    }
  }

  lemma NoChunksOfNone()
    ensures Chunks([]) == []
  {
  }

  lemma SomeChunks(sections: seq<Section>)
    requires sections != [] && NoneEmpty(sections)
    ensures Chunks(sections) != []
  {
  }

  /** The units read back before any heading: what is left of the first, and the others. */
  function Left(t: Body): seq<Unit>
    requires Opens(t)
  {
    var units := t.sections[0].units;
    (if units[0].lines[1..] == [] then [] else [Unit(Paragraph, units[0].lines[1..], units[0].layer)]) + units[1..]
  }

  /** Up to two sections without headings settle into one. */
  lemma LeadSettles(a: Section, b: Section, first: seq<Section>)
    requires a.heading.None? && b.heading.None?
    requires first == (if a.units == [] then [] else [a]) + (if b.units == [] then [] else [b])
    ensures Settle(first) == if a.units + b.units == [] then [] else [Section(None, a.units + b.units)]
  {
    hide Settle;
    NothingSettles();
    if a.units == [] {
      assert [] + b.units == b.units;
      if b.units == [] { assert first == []; } else { SettleTwo(b, b); assert first == [b]; }
    } else {
      SettleTwo(a, b);
      if b.units == [] { assert first == [a] && a.units + [] == a.units; }
    }
  }

  lemma LeftGathered(names: Names, t: Body)
    requires Opens(t) && UnderHeads(t.sections)
    ensures Gather(names, Settle(AfterTitle(t)), None) == Left(t)
  {
    hide Settle;
    var units, rest := t.sections[0].units, t.sections[1..];
    var r := units[0].lines[1..];
    var a, b := Section(None, if r == [] then [] else [Unit(Paragraph, r, units[0].layer)]), Section(None, units[1..]);
    var first := (if a.units == [] then [] else [a]) + (if b.units == [] then [] else [b]);
    LeadSettles(a, b, first);
    NoLead(names, rest);
    SettleMore(first, rest);
    assert AfterTitle(t) == first + rest;
    GatherAppends(names, Settle(first), rest, None);
    assert Left(t) == a.units + b.units;
    if Left(t) != [] { GatherSingle(names, Section(None, Left(t))); }
    assert Gather(names, [], None) == [];
    assert Gather(names, Settle(first), None) + [] == Gather(names, Settle(first), None);
  }

  lemma GatherSingle(names: Names, s: Section)
    requires s.heading.None?
    ensures Gather(names, [s], None) == s.units
  {
    GatherOne(names, [], s, None);
    assert [] + [s] == [s] && [] + s.units == s.units;
  }

  /** A key that neither what is left of a first paragraph nor any unit after it has. */
  lemma NotLeft(names: Names, t: Body, k: string)
    requires Opens(t) && !HasKey(names, t.sections[0].units[1..], k)
    requires t.sections[0].units[0].lines[1..] != [] ==> names.unit(t.sections[0].units[0].lines[1..]) != k
    ensures !HasKey(names, Left(t), k)
  {
    var units := t.sections[0].units;
    var left := Unit(Paragraph, units[0].lines[1..], units[0].layer);
    if HasKey(names, Left(t), k) {
      KeyOfPair(names, if left.lines == [] then [] else [left], units[1..], k);
    }
  }

  lemma KeyOfPair(names: Names, a: seq<Unit>, b: seq<Unit>, k: string)
    ensures HasKey(names, a + b, k) <==> HasKey(names, a, k) || HasKey(names, b, k)
  {
    if HasKey(names, a + b, k) { KeyOfEither(names, a + b, a, b, k); }
    if HasKey(names, a, k) {
      var i :| 0 <= i < |a| && KeyOf(names, a[i]) == k;
      assert (a + b)[i] == a[i];
    }
    if HasKey(names, b, k) {
      var i :| 0 <= i < |b| && KeyOf(names, b[i]) == k;
      assert (a + b)[|a| + i] == b[i];
    }
  }

  lemma StandForKeys(names: Names, a: seq<Unit>, b: seq<Unit>, connections: bool, k: string)
    requires StandFor(names, a, b, connections)
    ensures HasKey(names, a, k) <==> HasKey(names, b, k)
  {
    if HasKey(names, a, k) {
      var i :| 0 <= i < |a| && KeyOf(names, a[i]) == k;
      assert StandsFor(names, a[i], b[i], connections);
    }
    if HasKey(names, b, k) {
      var i :| 0 <= i < |b| && KeyOf(names, b[i]) == k;
      assert StandsFor(names, a[i], b[i], connections);
    }
  }

  /** With distinct keys, one unit's key is no other's. */
  lemma OthersKeys(names: Names, units: seq<Unit>, i: nat)
    requires DistinctKeys(names, units) && i < |units|
    ensures !HasKey(names, units[..i], KeyOf(names, units[i])) && !HasKey(names, units[i + 1..], KeyOf(names, units[i]))
  {
  }

  lemma LeftTail(names: Names, b: Body)
    requires EdgeBlind(names) && LastUnits(b) != [] && Opens(Tailed(b))
             && !(|b.sections| == 1 && Swallowed(LastUnits(b)))
    ensures |b.sections[0].units| == |Tailed(b).sections[0].units|
    ensures StandFor(names, Tailed(b).sections[0].units, b.sections[0].units, false)
  {
    hide TailUnits, Swallowed, EdgeBlind;
    if |b.sections| == 1 {
      TailUnitsFor(names, b.sections[0].units, false);
    }
  }

  lemma FirstKeyGone(names: Names, t: seq<Unit>, units: seq<Unit>)
    requires StandFor(names, t, units, false) && DistinctKeys(names, units) && units != []
    ensures !HasKey(names, t[1..], KeyOf(names, units[0]))
  {
    OthersKeys(names, units, 0);
    assert StandFor(names, t[1..], units[1..], false);
    StandForKeys(names, t[1..], units[1..], false, KeyOf(names, units[0]));
  }

  /** Read as a title, the first line takes its unit's key with it. */
  lemma TitleLoses(names: Names, b: Body, layer: string)
    requires EdgeBlind(names) && Wordier(names) && OpenBody(b, layer) && IsTitle(FirstUnit(b).lines[0])
             && NoRepeats(names, b)
    requires !(|b.sections| == 1 && Swallowed(LastUnits(b)))
    ensures b.sections[0].units != [] && Loses(names, Parse(Render(b), layer), b, None, b.sections[0].units[0])
  {
    hide Parse, Render, Tailed, HeadUnit, EdgeBlind, PrintedLines, Settle, AfterTitle, Left, Sound, Swallowed, Wordier;
    var t := Tailed(b);
    TitledRest(b, layer);
    TailedHeaded(b);
    LeftGathered(names, t);
    FirstKeyFor(names, b, layer);
    LeadOf(names, b.sections);
    LeftTail(names, b);
    assert DistinctKeys(names, Gather(names, b.sections, None));
    FirstKeyGone(names, t.sections[0].units, b.sections[0].units);
    FirstLonger(names, t.sections[0].units[0]);
    NotLeft(names, t, KeyOf(names, b.sections[0].units[0]));
  }

  /** A unit without its first line has another key. */
  lemma FirstLonger(names: Names, u: Unit)
    requires Wordier(names) && u.lines != [] && IsTitle(HeadUnit(u).lines[0])
    ensures names.unit(u.lines[1..]) != names.unit(HeadUnit(u).lines)
  {
    HeadLines(u);
    var first := [HeadUnit(u).lines[0]];
    assert first[0][0] == '#' && !Blank(first[0]);
    assert HasText(first);
    assert HeadUnit(u).lines == first + u.lines[1..];
  }

  // ---- a last item without text after another item ----------------------------------------------------

  function Eater(units: seq<Unit>): Unit
    requires Swallowed(units)
  {
    TailUnits(units)[|units| - 2]
  }

  /** The item that takes it in has the key of neither. */
  lemma EaterKey(names: Names, units: seq<Unit>, layer: string)
    requires EdgeBlind(names) && Wordier(names) && Swallowed(units) && UnitsOk(units, layer)
    ensures var n := |units| - 1;
            KeyOf(names, Eater(units)) != KeyOf(names, units[n])
              && KeyOf(names, Eater(units)) != KeyOf(names, units[n - 1])
  {
    hide ClassOf, IsItem, Runs, StripTail;
    var n := |units| - 1;
    var a, z := units[n - 1], units[n];
    assert UnitOk(a, layer) && UnitOk(z, layer);
    UnitHasText(a, layer);
    TailOk(z, layer);
    assert HasText(a.lines) && HasText(TailUnit(z).lines);
    assert Eater(units).lines == a.lines + TailUnit(z).lines;
    TailFor(names, z, false);
  }

  lemma {:induction false} RunMember(t: string, chars: set<char>, i: nat)
    requires i < Run(t, chars)
    ensures t[i] in chars
  {
    if i > 0 { RunMember(t[1..], chars, i - 1); }
  }

  lemma {:induction false} BareMark(line: Line, i: nat)
    requires IsItem(line) && !IsItem(TrimEnd(line)) && i < |line|
    ensures line[i] != '['
  {
    var n := TrimEndKeeps(line);
    RunOfPrefix(line, n, DIGITS);
    var digits := Run(line, DIGITS);
    if i < digits { RunMember(line, DIGITS, i); }
    if i >= n { assert IsSpace(line[i]); }
  }

  lemma BareItemUnlinked(names: Names, u: Unit, layer: string, connections: bool)
    requires Linked(names) && UnitOk(u, layer) && u.kind == Item && TailUnit(u).kind != Item
    ensures LinkOf(names, u, connections).None?
  {
    hide IsItem, ClassOf, Runs, StripTail;
    UnitHasText(u, layer);
    var m := StripTailKeeps(u.lines);
    TailRuns(u, m);
    FirstStarts(u.lines);
    ItemOfClass(u.lines[0]);
    assert StripTail(u.lines)[0] == TrimEnd(u.lines[0]);
    forall k, i | 0 <= k < |u.lines| && 0 <= i < |u.lines[k]| ensures u.lines[k][i] != '[' {
      if k == 0 { BareMark(u.lines[0], i); } else { assert IsSpace(u.lines[k][i]); }
    }
    assert !Bracket(u.lines);
  }

  lemma SwallowedGone(names: Names, before: seq<Unit>, units: seq<Unit>, layer: string)
    requires EdgeBlind(names) && Wordier(names) && Swallowed(units) && UnitsOk(units, layer)
             && DistinctKeys(names, before + units)
    ensures !HasKey(names, before + TailUnits(units), KeyOf(names, units[|units| - 1]))
  {
    hide TailUnit, EdgeBlind, Wordier, UnitsOk;
    var n := |units| - 1;
    var k := KeyOf(names, units[n]);
    EaterKey(names, units, layer);
    OthersKeys(names, before + units, |before| + n);
    assert (before + units)[..|before| + n] == before + units[..n - 1] + [units[n - 1]];
    KeyOfPair(names, before + units[..n - 1], [units[n - 1]], k);
    KeyOfPair(names, before + units[..n - 1], [Eater(units)], k);
    assert before + TailUnits(units) == before + units[..n - 1] + [Eater(units)];
    assert [Eater(units)][0] == Eater(units);
  }

  lemma LastGathered(names: Names, b: Body)
    requires LastUnits(b) != []
    ensures var n := |b.sections| - 1;
            var key := SectionKeyOf(names, b.sections[n]);
            var before := Gather(names, b.sections[..n], key);
            && Gather(names, b.sections, key) == before + b.sections[n].units
            && Gather(names, Tailed(b).sections, key) == before + TailUnits(b.sections[n].units)
  {
    hide TailUnits;
    var n := |b.sections| - 1;
    var key := SectionKeyOf(names, b.sections[n]);
    GatherOne(names, b.sections[..n], b.sections[n], key);
    GatherOne(names, b.sections[..n], Tailed(b).sections[n], key);
    assert b.sections == b.sections[..n] + [b.sections[n]];
  }

  lemma SwallowedUnder(names: Names, b: Body, layer: string)
    requires EdgeBlind(names) && Wordier(names) && Sound(b.sections, layer) && NoRepeats(names, b)
    requires LastUnits(b) != [] && Swallowed(LastUnits(b))
    ensures var last := b.sections[|b.sections| - 1];
            var z := last.units[|last.units| - 1];
            && UnitOk(z, layer) && z in Gather(names, b.sections, SectionKeyOf(names, last))
            && !HasKey(names, Gather(names, Tailed(b).sections, SectionKeyOf(names, last)), KeyOf(names, z))
  {
    hide EdgeBlind, Wordier, TailUnits, Swallowed, UnitOk, HasKey, Tailed, Gather, DistinctKeys;
    var n := |b.sections| - 1;
    var last, key := b.sections[n], SectionKeyOf(names, b.sections[n]);
    var before := Gather(names, b.sections[..n], key);
    LastGathered(names, b);
    assert DistinctKeys(names, Gather(names, b.sections, key));
    SoundHeading(b.sections, n, layer);
    SwallowedGone(names, before, last.units, layer);
    assert (before + last.units)[|before| + |last.units| - 1] == last.units[|last.units| - 1];
    assert UnitOk(last.units[|last.units| - 1], layer);
  }

  /** The item swallowed is lost. */
  lemma SwallowedLoses(names: Names, b: Body, layer: string)
    requires EdgeBlind(names) && Wordier(names) && Linked(names) && Storable(b, layer) && TitleOk(b.title)
             && NoRepeats(names, b)
    requires Swallowed(LastUnits(b)) && (Opens(Tailed(b)) ==> HeadOk(Tailed(b)))
    ensures var last := b.sections[|b.sections| - 1];
            Loses(names, Parse(Render(b), layer), b, SectionKeyOf(names, last), last.units[|last.units| - 1])
  {
    hide Parse, Render, Pared, Tailed, UnderHeads, Sound, EdgeBlind, Wordier, Opens, HeadOk, TailUnit, Linked, UnitOk,
         NoRepeats, HasKey;
    var last := b.sections[|b.sections| - 1];
    var key, z := SectionKeyOf(names, last), last.units[|last.units| - 1];
    var t := Tailed(b);
    SwallowedUnder(names, b, layer);
    ReadBack(b, layer);
    FirstTailedOk(b, layer);
    ParedFor(names, t, layer);
    GatherFor(names, Pared(t).sections, t.sections, key);
    StandForKeys(names, Gather(names, Pared(t).sections, key), Gather(names, t.sections, key), key == Some(CONNECTIONS),
                 KeyOf(names, z));
    BareItemUnlinked(names, z, layer, key == Some(CONNECTIONS));
  }

  /** What is left of the first paragraph has the key of at most one of the last two items. */
  lemma OneOfTwo(names: Names, t: Body, units: seq<Unit>, layer: string) returns (u: Unit)
    requires EdgeBlind(names) && Wordier(names) && Swallowed(units) && UnitsOk(units, layer)
             && DistinctKeys(names, units)
    requires Opens(t) && t.sections[0].units == TailUnits(units)
    ensures u in units && !HasKey(names, Left(t), KeyOf(names, u))
  {
    hide EdgeBlind, Wordier, TailUnit, Left, UnitsOk;
    var n := |units| - 1;
    EaterKey(names, units, layer);
    u := if names.unit(t.sections[0].units[0].lines[1..]) != KeyOf(names, units[n]) then units[n] else units[n - 1];
    assert n - 1 >= 1;
    MiddleKeys(names, units, n - 1, KeyOf(names, u));
    assert t.sections[0].units[1..] == units[1..n - 1] + [Eater(units)];
    KeyOfPair(names, units[1..n - 1], [Eater(units)], KeyOf(names, u));
    assert [Eater(units)][0] == Eater(units);
    NotLeft(names, t, KeyOf(names, u));
  }

  lemma MiddleKeys(names: Names, units: seq<Unit>, i: nat, k: string)
    requires DistinctKeys(names, units) && 1 <= i < |units|
    requires exists j :: i <= j < |units| && k == KeyOf(names, units[j])
    ensures !HasKey(names, units[1..i], k)
  {
  }

  /** A first line read as a title and a last item swallowed under the same heading: one of the last two is lost. */
  lemma BothLose(names: Names, b: Body, layer: string) returns (u: Unit)
    requires EdgeBlind(names) && Wordier(names) && OpenBody(b, layer) && IsTitle(FirstUnit(b).lines[0])
             && NoRepeats(names, b)
    requires |b.sections| == 1 && Swallowed(LastUnits(b))
    ensures Loses(names, Parse(Render(b), layer), b, None, u)
  {
    hide Parse, Render, HeadUnit, EdgeBlind, PrintedLines, Settle, AfterTitle, Left, Wordier, TailUnits, Swallowed,
         UnitOk, HasKey;
    var t, units := Tailed(b), b.sections[0].units;
    TitledRest(b, layer);
    TailedHeaded(b);
    LeftGathered(names, t);
    FirstKeyFor(names, b, layer);
    LeadOf(names, b.sections);
    assert DistinctKeys(names, Gather(names, b.sections, None));
    SoundHeading(b.sections, 0, layer);
    u := OneOfTwo(names, t, units, layer);
  }

  // ---- a title that is the mark alone -----------------------------------------------------------------

  /** The mark and an empty line after it are a paragraph. */
  lemma MarkFirst(text: seq<Line>, layer: string)
    requires |text| > 1 && text[0] == "#" && text[1] == ""
    ensures ParseFrom(text, layer)[0].units != [] && ParseFrom(text, layer)[0].units[0] == Unit(Paragraph, ["#"], layer)
  {
    hide EatAll, Finish;
    var mark := Unit(Paragraph, ["#"], layer);
    var s := EatAll(Clean(START), [text[0]], layer);
    var r := EatAll(s, [text[1]], layer);
    MarkEaten(layer);
    EatOne(Clean(START), text[0], layer);
    EatOne(s, text[1], layer);
    EatAppends(Clean(START), [text[0]], [text[1]], layer);
    FirstStaysAll(r, text[2..], layer);
    EatAppends(Clean(START), [text[0]] + [text[1]], text[2..], layer);
    assert [text[0]] + [text[1]] + text[2..] == text;
    FinishStays(EatAll(r, text[2..], layer), layer);
  }

  lemma MarkEaten(layer: string)
    ensures Eat(Eat(Clean(START), "#", layer), "", layer) == Clean(AddUnit(START, Unit(Paragraph, ["#"], layer)))
  {
    hide ClassOf;
    MarkContinues();
    EmptyClass();
    LineEaten("#", layer);
  }

  /** A line of a paragraph on its own, and an empty line. */
  lemma LineEaten(line: Line, layer: string)
    requires ClassOf(line) == Continues && ClassOf("") == Empty && !Blank(line)
    ensures Eat(Eat(Clean(START), line, layer), "", layer) == Clean(AddUnit(START, Unit(Paragraph, [line], layer)))
  {
    hide AddUnit, ClassOf;
    var s := Eat(Clean(START), line, layer);
    assert s == State(START, [line], Paragraph, Open) by { assert [] + [line] == [line]; }
    var none: Line := [];
    assert Blank(none);
    assert TrimEmpty([line]) == [line];
    assert Flush(s, layer) == Clean(AddUnit(START, Unit(Paragraph, [line], layer)));
  }

  lemma EmptyClass()
    ensures ClassOf("") == Empty
  {
    assert Strip("") == "";
  }

  lemma MarkRead(b: Body, layer: string)
    requires Storable(b, layer) && b.title == "#"
    ensures var sections := Parse(Render(b), layer).sections;
            && sections != [] && sections[0].heading.None? && sections[0].units != []
            && sections[0].units[0] == Unit(Paragraph, ["#"], layer)
  {
    hide BodyText, Tailed, Stripped, Parse, StripHead, Render, ParseFrom, Sound, Keep;
    var t := Tailed(b);
    PrintedText(b, layer);
    TailedTitle(b);
    TailedHeaded(b);
    TailedSound(b, layer);
    var text := BodyText(t);
    TitledText(t);
    SomeChunks(t.sections);
    assert text[0][0] == '#';
    NoSpaceAhead(text);
    assert text[1] == "" by { assert text[1..][0] == text[1]; }
    ParsePlain(text, layer);
    MarkFirst(text, layer);
    ParseFromLead(text, layer);
    KeepOf(ParseFrom(text, layer));
  }

  lemma ParseFromLead(text: seq<Line>, layer: string)
    requires text != [] && Stripped(text)
    ensures LeadFirst(ParseFrom(text, layer))
  {
    StrippedEnds(text);
    ParseFromSound(text, layer);
  }

  // ---- exactly when -----------------------------------------------------------------------------------

  const MARK: seq<Line> := ["#"]

  /** What the layer adds has each key once under a heading, a title that is the mark alone counted in. */
  ghost predicate NewOnce(names: Names, text: seq<Line>, public: seq<Line>) {
    var rest := SplitBody(names, text, public);
    && NoRepeats(names, rest)
    && (rest.title == "#" ==>
         && !HasKey(names, Gather(names, Parse(public, PUBLIC).sections, None), names.unit(MARK))
         && !HasKey(names, Gather(names, rest.sections, None), names.unit(MARK)))
  }

  lemma LeftHas(names: Names, text: seq<Line>, public: seq<Line>, k: string)
    requires HasKey(names, Gather(names, Parse(text, PUBLIC).sections, None), k)
             && k !in Known(names, Parse(public, PUBLIC).sections)
    ensures HasKey(names, Gather(names, SplitBody(names, text, public).sections, None), k)
  {
    hide Parse, Known;
    var sections, known := Parse(text, PUBLIC).sections, Known(names, Parse(public, PUBLIC).sections);
    var units := Gather(names, sections, None);
    var i :| 0 <= i < |units| && KeyOf(names, units[i]) == k;
    GatherRest(names, sections, known, None);
    WithoutIs(names, units, known, units[i]);
    var left := Without(names, units, known);
    var j :| 0 <= j < |left| && left[j] == units[i];
  }

  /** The mark is read back as a unit of the layer's that its body does not have. */
  lemma MarkSeen(names: Names, text: seq<Line>, public: seq<Line>, layer: string)
    requires layer != PUBLIC && NewOnce(names, text, public)
    requires SplitBody(names, text, public).sections != [] && SplitBody(names, text, public).title == "#"
    ensures !FusedAt(names, text, public, layer, None)
  {
    hide Parse, Render, SplitBody, Seen, Storable, Known;
    var rest := SplitBody(names, text, public);
    RestKept(names, text, public, layer);
    RelabeledText(rest, layer);
    MarkRead(Marked(rest, layer), layer);
    var back := Parse(Render(rest), layer);
    ParseSound(Render(rest), layer);
    LeadOf(names, back.sections);
    SeenIs(names, text, public, layer, None);
    var p, s, got := Gather(names, Parse(public, PUBLIC).sections, None), Gather(names, back.sections, None),
        Seen(names, text, public, layer, None);
    assert Split(names, text, public) == Render(rest);
    var mark := Unit(Paragraph, MARK, layer);
    assert s[0] == mark && mark in p + s && Shows(names, got, mark, false);
    if FusedAt(names, text, public, layer, None) {
      MarkClaimed(names, p, Gather(names, Parse(text, PUBLIC).sections, None),
                  Known(names, Parse(public, PUBLIC).sections), layer, got);
      LeftHas(names, text, public, names.unit(MARK));
    }
  }

  lemma MarkClaimed(names: Names, p: seq<Unit>, b: seq<Unit>, known: set<string>, layer: string, got: seq<Unit>)
    requires FusedOk(names, p, b, known, layer, got, false) && HasKey(names, got, names.unit(MARK))
             && !HasKey(names, p, names.unit(MARK))
    ensures HasKey(names, b, names.unit(MARK)) && names.unit(MARK) !in known
  {
    var i :| 0 <= i < |got| && KeyOf(names, got[i]) == names.unit(MARK);
    assert got[i] in got;
  }

  lemma RelabeledRepeats(names: Names, b: Body, layer: string)
    requires NoRepeats(names, b)
    ensures NoRepeats(names, Marked(b, layer))
  {
    var r := Marked(b, layer);
    forall key ensures DistinctKeys(names, Gather(names, r.sections, key)) {
      RelabeledGather(names, b.sections, layer, key);
      var units := Gather(names, b.sections, key);
      assert DistinctKeys(names, units);
      assert forall k :: 0 <= k < |units| ==> KeyOf(names, Relabel(units, layer)[k]) == KeyOf(names, units[k]);
    }
  }

  /** A body that does not read on loses a unit, unless its title is the mark or it starts a stray callout that
      has an end. */
  lemma SomethingLost(names: Names, b: Body, layer: string) returns (key: SectionKey, u: Unit)
    requires EdgeBlind(names) && Wordier(names) && Linked(names) && Storable(b, layer) && NoRepeats(names, b)
    requires b.title != "#" && !ReadsOn(b) && !StrayCallout(b)
    ensures Loses(names, Parse(Render(b), layer), b, key, u)
  {
    hide Parse, Render, Tailed, EdgeBlind, Wordier, Linked, NoRepeats, Loses, Swallowed, ClassOf, UnderHeads, Sound;
    if Opens(Tailed(b)) && !HeadOk(Tailed(b)) {
      OpensUntitled(b);
      key := None;
      if IsTitle(FirstUnit(b).lines[0]) {
        if |b.sections| == 1 && Swallowed(LastUnits(b)) {
          u := BothLose(names, b, layer);
        } else {
          TitleLoses(names, b, layer);
          u := b.sections[0].units[0];
        }
      } else if ClassOf(FirstUnit(b).lines[0]) == Heads {
        HeadingLoses(names, b, layer);
        u := b.sections[0].units[0];
      } else {
        CalloutOpen(b, layer);
        assert Wordy(names) by { WordierIsWordy(names); }
        OpenCalloutLoses(names, b, layer);
        u := b.sections[0].units[0];
      }
    } else {
      var last := b.sections[|b.sections| - 1];
      SwallowedLoses(names, b, layer);
      key, u := SectionKeyOf(names, last), last.units[|last.units| - 1];
    }
  }

  lemma CalloutOpen(b: Body, layer: string)
    requires OpenBody(b, layer) && !HeadOk(Tailed(b)) && !StrayCallout(b)
    requires !IsTitle(FirstUnit(b).lines[0]) && ClassOf(FirstUnit(b).lines[0]) != Heads
    ensures FirstUnit(b).kind == Callout && PrintedLines(b) != [] && NoneEnds(PrintedLines(b)[1..])
  {
    hide ClassOf, Tailed, IsCallout, PrintedLines;
    PrintedStart(b, layer);
  }

  lemma RelabeledLead(units: seq<Unit>, layer: string)
    ensures RelabelAll([Section(None, units)], layer) == [Section(None, Relabel(units, layer))]
  {
  }

  lemma RelabeledFirst(units: seq<Unit>, layer: string)
    requires units != [] && units[0].lines != []
    ensures HeadUnit(Relabel(units, layer)[0]) == HeadUnit(units[0]).(layer := layer)
    ensures Relabel([HeadUnit(units[0])], layer) == [HeadUnit(units[0]).(layer := layer)]
    ensures Relabel(units, layer)[1..] == Relabel(units[1..], layer)
  {
    hide ClassOf;
  }

  lemma RelabeledParted(t: Body, layer: string)
    requires Opens(t)
    ensures Opens(Marked(t, layer)) && Parted(Marked(t, layer)) == Marked(Parted(t), layer)
    ensures HeadUnit(Marked(t, layer).sections[0].units[0]) == HeadUnit(t.sections[0].units[0]).(layer := layer)
  {
    hide HeadUnit, Relabel, RelabelAll;
    var units, rest := t.sections[0].units, t.sections[1..];
    var first, lead := HeadUnit(units[0]), t.sections[0];
    var second := if units[1..] == [] then [] else [Section(None, units[1..])];
    RelabeledFirst(units, layer);
    RelabeledHead(t, layer);
    RelabeledLead([first], layer);
    RelabeledLead(units[1..], layer);
    RelabeledRest(t.sections, layer);
    RelabeledJoin([Section(None, [first])], second, layer);
    RelabeledJoin([Section(None, [first])] + second, rest, layer);
    assert RelabelAll(second, layer) == if units[1..] == [] then [] else [Section(None, Relabel(units[1..], layer))];
  }

  lemma RelabeledRest(sections: seq<Section>, layer: string)
    requires sections != []
    ensures RelabelAll(sections, layer)[1..] == RelabelAll(sections[1..], layer)
  {
    hide RelabelAll, Relabel;
  }

  lemma RelabeledJoin(a: seq<Section>, b: seq<Section>, layer: string)
    ensures RelabelAll(a + b, layer) == RelabelAll(a, layer) + RelabelAll(b, layer)
  {
    hide RelabelAll, Relabel;
    var r, joined := RelabelAll(a + b, layer), RelabelAll(a, layer) + RelabelAll(b, layer);
    forall k | 0 <= k < |r| ensures r[k] == joined[k] { assert (a + b)[k] == if k < |a| then a[k] else b[k - |a|]; }
  }

  lemma RelabeledPrinted(b: Body, layer: string)
    requires LastUnits(b) != [] && Opens(Tailed(b)) && LastUnits(Marked(b, layer)) != []
    requires Tailed(Marked(b, layer)) == Marked(Tailed(b), layer)
    ensures Opens(Tailed(Marked(b, layer))) && PrintedLines(Marked(b, layer)) == PrintedLines(b)
    ensures FirstUnit(Marked(b, layer)) == FirstUnit(b).(layer := layer)
  {
    hide BodyText, Tailed, HeadUnit, Parted, Opens;
    RelabeledParted(Tailed(b), layer);
    RelabeledText(Parted(Tailed(b)), layer);
  }

  lemma RelabeledStray(b: Body, layer: string)
    requires LastUnits(b) != []
    ensures StrayCallout(Marked(b, layer)) == StrayCallout(b)
  {
    hide Tailed, ClassOf, IsCallout, Opens, HeadOk, HeadUnit, PrintedLines, FirstUnit;
    RelabeledTailed(b, layer);
    RelabeledHead(Tailed(b), layer);
    if Opens(Tailed(b)) { RelabeledPrinted(b, layer); }
  }

  /** And the fused page misses it. */
  lemma LostIsUnseen(names: Names, text: seq<Line>, public: seq<Line>, layer: string, key: SectionKey, u: Unit)
    requires SplitBody(names, text, public).sections != []
    requires var rest := SplitBody(names, text, public);
             Loses(names, Parse(Render(rest), layer), Marked(rest, layer), key, u)
    ensures !FusedAt(names, text, public, layer, key)
  {
    hide Parse, Render, SplitBody, FusedAt, Gather, HasKey;
    var rest := SplitBody(names, text, public);
    RelabeledGather(names, rest.sections, layer, key);
    var units := Gather(names, rest.sections, key);
    var i :| 0 <= i < |units| && Relabel(units, layer)[i] == u;
    LeftIs(names, text, public, key, units[i]);
    assert Split(names, text, public) == Render(rest);
    NotSeen(names, text, public, layer, key, units[i]);
  }

  lemma UnreadIsUnseen(names: Names, text: seq<Line>, public: seq<Line>, layer: string) returns (key: SectionKey)
    requires EdgeBlind(names) && Wordier(names) && Linked(names) && layer != PUBLIC && NewOnce(names, text, public)
    requires !ReadsOn(SplitBody(names, text, public)) && !StrayCallout(SplitBody(names, text, public))
    ensures !FusedAt(names, text, public, layer, key)
  {
    hide Parse, Render, SplitBody, FusedAt, EdgeBlind, Wordier, Linked, NoRepeats, Loses, Storable, StrayCallout,
         ReadsOn;
    var rest := SplitBody(names, text, public);
    Unread(rest);
    RestKept(names, text, public, layer);
    key := None;
    if rest.title == "#" {
      MarkSeen(names, text, public, layer);
    } else {
      var u;
      RelabeledReads(rest, layer);
      RelabeledStray(rest, layer);
      RelabeledRepeats(names, rest, layer);
      RelabeledText(rest, layer);
      key, u := SomethingLost(names, Marked(rest, layer), layer);
      LostIsUnseen(names, text, public, layer, key, u);
    }
  }

  lemma Unread(b: Body)
    requires !ReadsOn(b)
    ensures b.sections != []
  {
  }

  /** Where what the layer adds has each key once under a heading, and the stored text starts no stray callout
      that has an end, the fused page is as promised under every heading exactly when the stored text reads on. */
  lemma FusedExactly(names: Names, text: seq<Line>, public: seq<Line>, layer: string)
    requires EdgeBlind(names) && Wordier(names) && Linked(names) && layer != PUBLIC && NewOnce(names, text, public)
    requires !StrayCallout(SplitBody(names, text, public))
    ensures (forall key :: FusedAt(names, text, public, layer, key)) <==> ReadsOn(SplitBody(names, text, public))
  {
    hide Parse, SplitBody, FusedAt, EdgeBlind, Wordier, Linked, NewOnce, StrayCallout, ReadsOn;
    if ReadsOn(SplitBody(names, text, public)) {
      forall key ensures FusedAt(names, text, public, layer, key) { FusedShowsBoth(names, text, public, layer, key); }
    } else {
      var key := UnreadIsUnseen(names, text, public, layer);
    }
  }
}
