/** What a printed body is read back as, whatever its text has at its edges. */
module BodyReadBack {
  import opened Options
  import opened Text
  import opened PageBodies
  import opened BodyRender
  import opened BodyParse
  import opened BodyRoundTrip
  import opened BodyNormal
  import opened BodyEdges

  // ---- the end of a body ----------------------------------------------------------------------------

  function LastUnits(b: Body): seq<Unit> { if b.sections == [] then [] else b.sections[|b.sections| - 1].units }

  /** The body whose text is that of `b` without the white space at its end. */
  function Tailed(b: Body): Body
    requires LastUnits(b) != []
  {
    var n := |b.sections| - 1;
    b.(sections := b.sections[..n] + [b.sections[n].(units := TailUnits(b.sections[n].units))])
  }

  /** The text before the last section's units. */
  function Ahead(b: Body): seq<Line>
    requires b.sections != []
  {
    var n := |b.sections| - 1;
    var parts := (if b.title == "" then [] else [[b.title]]) + Chunks(b.sections[..n]);
    (if parts == [] then [] else Join(parts) + [""])
    + (if b.sections[n].heading.Some? then [b.sections[n].heading.value] else [])
  }

  lemma BodyTextLast(b: Body)
    requires LastUnits(b) != []
    ensures BodyText(b) == Ahead(b) + UnitsText(LastUnits(b))
  {
    hide UnitsText;
    var n := |b.sections| - 1;
    var parts := (if b.title == "" then [] else [[b.title]]) + Chunks(b.sections[..n]);
    var whole := (if b.title == "" then [] else [[b.title]]) + Chunks(b.sections);
    assert whole == parts + [SectionText(b.sections[n])];
    assert whole[..|parts|] == parts;
    if parts == [] {
      assert Join(whole) == whole[0];
    } else {
      var heading := if b.sections[n].heading.Some? then [b.sections[n].heading.value] else [];
      assert Join(parts) + [""] + (heading + UnitsText(b.sections[n].units)) ==
             Join(parts) + [""] + heading + UnitsText(b.sections[n].units);
    }
  }

  lemma TailedText(b: Body, layer: string)
    requires LastUnits(b) != [] && UnitsOk(LastUnits(b), layer)
    ensures LastUnits(Tailed(b)) != [] && BodyText(Tailed(b)) == StripTail(BodyText(b))
  {
    hide UnitsText, StripTail, TailUnits, BodyText;
    var units := LastUnits(b);
    BodyTextLast(b);
    TailUnitsText(units, layer);
    NoUnitsLost(units);
    BodyTextLast(Tailed(b));
    assert Tailed(b).sections[..|b.sections| - 1] == b.sections[..|b.sections| - 1];
    assert Ahead(Tailed(b)) == Ahead(b);
    UnitsTextLast(units);
    var last := units[|units| - 1];
    assert UnitOk(last, layer);
    UnitHasText(last, layer);
    assert UnitsText(units)[|Before(units)|] == last.lines[0];
    StripTailAppends(Ahead(b), UnitsText(units));
  }

  lemma NoUnitsLost(units: seq<Unit>)
    requires units != []
    ensures TailUnits(units) != []
  {
  }

  lemma TailedSound(b: Body, layer: string)
    requires LastUnits(b) != [] && Sound(b.sections, layer)
    ensures Sound(Tailed(b).sections, layer)
  {
    hide UnitOk, Closed, TailUnits;
    var n := |b.sections| - 1;
    TailUnitsOk(b.sections[n].units, layer);
    assert Tailed(b).sections[..n] == b.sections[..n];
  }

  // ---- the start of a body --------------------------------------------------------------------------

  /** The text starts with a paragraph. */
  predicate Opens(b: Body) {
    && b.title == "" && b.sections != [] && b.sections[0].heading.None?
    && b.sections[0].units != [] && b.sections[0].units[0].kind == Paragraph && b.sections[0].units[0].lines != []
  }

  /** Its first line, stripped, is still no title, heading, or start of a callout, unless the unit is a whole
      callout. */
  predicate HeadOk(b: Body)
    requires Opens(b)
  {
    var u := HeadUnit(b.sections[0].units[0]);
    && !IsTitle(u.lines[0]) && ClassOf(u.lines[0]) != Heads
    && (u.kind == Callout ==> IsCallout(u.lines, true) || (IsCallout(u.lines, false) && OneUnit(b)))
  }

  predicate OneUnit(b: Body) { |b.sections| == 1 && |b.sections[0].units| == 1 }

  lemma FollowAhead(head: seq<Line>, text: seq<Line>, a: Unit, b: Unit)
    ensures Follow(head + text, a, b) == head + Follow(text, a, b)
  {
    hide Gap;
    var gap := Gap(a, b);
    assert head + text + gap + b.lines == head + (text + gap + b.lines);
  }

  lemma LastTextMore(u: Unit, more: seq<Unit>)
    requires |more| > 1
    ensures var n := |more| - 1; UnitsText([u] + more) == Follow(UnitsText([u] + more[..n]), more[n - 1], more[n])
  {
    hide UnitsText, Follow;
    var n := |more| - 1;
    var all := [u] + more;
    LastText(all);
    assert all[..n + 1] == [u] + more[..n];
  }

  lemma UnitsTextMore(u: Unit, more: seq<Unit>, head: seq<Line>)
    requires |more| > 1
    requires UnitsText([u] + more[..|more| - 1]) == head + UnitsText(more[..|more| - 1])
    ensures UnitsText([u] + more) == head + UnitsText(more)
  {
    hide UnitsText, Follow;
    var n := |more| - 1;
    LastText(more);
    LastTextMore(u, more);
    FollowAhead(head, UnitsText(more[..n]), more[n - 1], more[n]);
  }

  lemma UnitsTextTwo(u: Unit, v: Unit)
    ensures UnitsText([u] + [v]) == u.lines + (Gap(u, v) + UnitsText([v])) && UnitsText([u]) == u.lines
  {
    assert ([u] + [v])[..1] == [u];
    assert u.lines + Gap(u, v) + v.lines == u.lines + (Gap(u, v) + v.lines);
  }

  lemma {:induction false} UnitsTextFirst(u: Unit, more: seq<Unit>)
    ensures UnitsText([u] + more) == u.lines + if more == [] then [] else Gap(u, more[0]) + UnitsText(more)
  {
    hide UnitsText, Gap;
    if more == [] {
      UnitsTextTwo(u, u);
      assert [u] + more == [u];
    } else if |more| == 1 {
      UnitsTextTwo(u, more[0]);
      assert more == [more[0]];
    } else {
      var n := |more| - 1;
      var head := u.lines + Gap(u, more[0]);
      UnitsTextFirst(u, more[..n]);
      assert more[..n][0] == more[0];
      assert u.lines + (Gap(u, more[0]) + UnitsText(more[..n])) == head + UnitsText(more[..n]);
      UnitsTextMore(u, more, head);
      assert u.lines + (Gap(u, more[0]) + UnitsText(more)) == head + UnitsText(more);
    }
  }

  lemma {:induction false} ChunksFirst(s: Section, rest: seq<Section>)
    ensures Chunks([s] + rest) == (if s.units == [] then [] else [SectionText(s)]) + Chunks(rest)
  {
    hide SectionText;
    if rest == [] {
      assert [s] + rest == [s] && [s][..0] == [];
    } else {
      var n := |rest| - 1;
      ChunksFirst(s, rest[..n]);
      assert ([s] + rest)[..n + 1] == [s] + rest[..n];
      assert Chunks([s] + rest) == Chunks([s] + rest[..n]) + if rest[n].units == [] then [] else [SectionText(rest[n])];
    }
  }

  /** The first unit, stripped, as a part of its own; an empty line follows a paragraph anyway. */
  function Parted(b: Body): Body
    requires Opens(b)
  {
    var units := b.sections[0].units;
    b.(sections := [Section(None, [HeadUnit(units[0])])]
                   + (if units[1..] == [] then [] else [Section(None, units[1..])]) + b.sections[1..])
  }

  /** The same, joined again. */
  function Pared(b: Body): Body {
    if Opens(b)
    then
      var units := b.sections[0].units;
      b.(sections := [Section(None, [HeadUnit(units[0])] + units[1..])] + b.sections[1..])
    else b
  }

  function MoreUnits(more: seq<Unit>): seq<Line> { if more == [] then [] else [""] + UnitsText(more) }

  function MoreSections(rest: seq<Section>): seq<Line> { if Chunks(rest) == [] then [] else [""] + Join(Chunks(rest)) }

  /** The lines after the first unit. */
  function AfterFirst(more: seq<Unit>, rest: seq<Section>): seq<Line> { MoreUnits(more) + MoreSections(rest) }

  lemma Regroup(a: seq<Line>, b: seq<Line>, c: seq<Line>)
    ensures a + b + c == a + (b + c)
  {
  }

  /** A section's lines and those of the sections after it. */
  lemma SectionThenRest(text: seq<Line>, rest: seq<Section>)
    ensures Join([text] + Chunks(rest)) == text + MoreSections(rest)
  {
    hide Join, Chunks;
    JoinFirst(text, Chunks(rest));
    if Chunks(rest) == [] { assert text + [] == text; } else { Regroup(text, [""], Join(Chunks(rest))); }
  }

  lemma HeadlessText(units: seq<Unit>)
    ensures SectionText(Section(None, units)) == UnitsText(units)
  {
    hide UnitsText;
  }

  lemma OpenText(u: Unit, more: seq<Unit>, rest: seq<Section>)
    requires more == [] || Gap(u, more[0]) == [""]
    ensures Join(Chunks([Section(None, [u] + more)] + rest)) == u.lines + AfterFirst(more, rest)
  {
    hide UnitsText, Chunks, Join, MoreSections, SectionText;
    var text := UnitsText([u] + more);
    ChunksFirst(Section(None, [u] + more), rest);
    HeadlessText([u] + more);
    UnitsTextFirst(u, more);
    SectionThenRest(text, rest);
    assert text == u.lines + MoreUnits(more);
    Regroup(u.lines, MoreUnits(more), MoreSections(rest));
  }

  lemma PartedTwo(u: Unit, more: seq<Unit>, rest: seq<Section>)
    requires more != []
    ensures Join(Chunks([Section(None, [u])] + ([Section(None, more)] + rest))) == u.lines + AfterFirst(more, rest)
  {
    hide UnitsText, Chunks, Join, MoreSections, SectionText;
    var text, b := UnitsText(more), MoreSections(rest);
    ChunksFirst(Section(None, [u]), [Section(None, more)] + rest);
    ChunksFirst(Section(None, more), rest);
    HeadlessText(more);
    HeadlessText([u]);
    UnitsTextTwo(u, u);
    JoinFirst(u.lines, [text] + Chunks(rest));
    SectionThenRest(text, rest);
    Regroup(u.lines, [""], text + b);
    Regroup([""], text, b);
  }

  lemma PartedText(u: Unit, more: seq<Unit>, rest: seq<Section>)
    ensures Join(Chunks([Section(None, [u])] + (if more == [] then [] else [Section(None, more)]) + rest)) ==
            u.lines + AfterFirst(more, rest)
  {
    hide UnitsText, Chunks, Join, SectionText, MoreSections;
    var first := Section(None, [u]);
    if more == [] {
      assert [first] + [] + rest == [first] + rest;
      ChunksFirst(first, rest);
      HeadlessText([u]);
      UnitsTextTwo(u, u);
      SectionThenRest(u.lines, rest);
      assert AfterFirst(more, rest) == MoreSections(rest);
    } else {
      PartedTwo(u, more, rest);
      assert [first] + [Section(None, more)] + rest == [first] + ([Section(None, more)] + rest);
    }
  }

  /** A text that starts with a paragraph, stripped at its start. */
  lemma PartedBody(b: Body, layer: string)
    requires Opens(b) && UnitOk(b.sections[0].units[0], layer)
    ensures BodyText(b) != [] && BodyText(Parted(b)) == StripHead(BodyText(b))
    ensures BodyText(Parted(b)) == [HeadUnit(b.sections[0].units[0]).lines[0]] + BodyText(b)[1..]
  {
    hide BodyText, Join, Chunks, ClassOf, IsCallout, AfterFirst, UnitOk;
    var units, rest := b.sections[0].units, b.sections[1..];
    assert [units[0]] + units[1..] == units;
    assert b.sections == [b.sections[0]] + rest;
    OpenText(units[0], units[1..], rest);
    PartedText(HeadUnit(units[0]), units[1..], rest);
    TextOf(b);
    TextOf(Parted(b));
    UnitHasText(units[0], layer);
    HeadOfText(units[0], AfterFirst(units[1..], rest));
  }

  lemma HeadOfText(u: Unit, after: seq<Line>)
    requires u.lines != [] && !Blank(u.lines[0])
    ensures HeadUnit(u).lines + after == StripHead(u.lines + after) == [HeadUnit(u).lines[0]] + (u.lines + after)[1..]
  {
    hide ClassOf;
    assert (u.lines + after)[1..] == u.lines[1..] + after;
    Regroup([HeadUnit(u).lines[0]], u.lines[1..], after);
  }

  lemma {:induction false} SettleMore(first: seq<Section>, rest: seq<Section>)
    requires NoneEmpty(rest) && forall k :: 0 <= k < |rest| ==> rest[k].heading.Some?
    ensures Settle(first + rest) == Settle(first) + rest
  {
    if rest == [] {
      assert first + rest == first && Settle(first) + rest == Settle(first);
    } else {
      var n := |rest| - 1;
      SettleMore(first, rest[..n]);
      assert (first + rest)[..|first| + n] == first + rest[..n];
      assert Settle(first) + rest[..n] + [rest[n]] == Settle(first) + rest;
    }
  }

  /** Sections as the split leaves them: each with units, only the first of them without a heading. */
  predicate UnderHeads(sections: seq<Section>) {
    NoneEmpty(sections) && forall k :: 0 <= k < |sections| ==> sections[k].heading.None? ==> k == 0
  }

  lemma SettleTwo(a: Section, b: Section)
    requires a.units != [] && a.heading.None? && b.heading.None?
    ensures Settle([a]) == [a]
    ensures b.units != [] ==> Settle([a] + [b]) == [Section(None, a.units + b.units)]
  {
    assert [a][..0] == [] && Settle([]) == [];
    assert ([a] + [b])[..1] == [a];
    assert Settle([a]) == [a];
  }

  lemma PartedSettles(b: Body)
    requires Opens(b) && UnderHeads(b.sections)
    ensures Settle(Parted(b).sections) == Pared(b).sections
  {
    hide Settle, HeadUnit;
    var units, rest := b.sections[0].units, b.sections[1..];
    var first, second := Section(None, [HeadUnit(units[0])]), Section(None, units[1..]);
    SettleTwo(first, second);
    if units[1..] == [] {
      SettleMore([first], rest);
      assert Parted(b).sections == [first] + rest;
      assert [HeadUnit(units[0])] + units[1..] == [HeadUnit(units[0])];
    } else {
      SettleMore([first] + [second], rest);
    }
  }

  lemma NotLastClosed(b: Body, layer: string)
    requires Opens(b) && Sound(b.sections, layer) && !OneUnit(b)
    ensures Closed(b.sections[0].units[0])
  {
    hide Closed, SectionOk;
    var units := b.sections[0].units;
    if |b.sections| == 1 {
      assert Front(units)[0] == units[0];
    } else {
      assert b.sections[..|b.sections| - 1][0] == b.sections[0];
    }
  }

  lemma PartedSound(b: Body, layer: string)
    requires Opens(b) && Sound(b.sections, layer) && HeadOk(b)
    ensures Sound(Parted(b).sections, layer)
  {
    hide UnitOk, Closed, IsCallout, ClassOf, HeadUnit;
    var units, rest := b.sections[0].units, b.sections[1..];
    SoundHeading(b.sections, 0, layer);
    assert UnitOk(units[0], layer);
    HeadStands(b, layer);
    var r := Parted(b).sections;
    var n := |r| - 1;
    if !OneUnit(b) {
      NotLastClosed(b, layer);
      assert r[0] == Section(None, [HeadUnit(units[0])]);
      PartedRest(b, layer);
    } else {
      assert r == [Section(None, [HeadUnit(units[0])])];
      assert r[..0] == [];
    }
  }

  lemma HeadStands(b: Body, layer: string)
    requires Opens(b) && UnitOk(b.sections[0].units[0], layer) && HeadOk(b)
    ensures UnitOk(HeadUnit(b.sections[0].units[0]), layer)
    ensures !OneUnit(b) && Closed(b.sections[0].units[0]) ==> Closed(HeadUnit(b.sections[0].units[0]))
  {
    hide ClassOf, Runs, InFence;
    HeadUnitOk(b.sections[0].units[0], layer);
  }

  /** The sections after the first unit, those after its section behind the units left in it. */
  function Behind(b: Body): seq<Section>
    requires Opens(b)
  {
    (if b.sections[0].units[1..] == [] then [] else [Section(None, b.sections[0].units[1..])]) + b.sections[1..]
  }

  lemma BehindSound(b: Body, layer: string)
    requires Opens(b) && Sound(b.sections, layer)
    ensures Sound(Behind(b), layer)
  {
    hide Sound, SectionOk, AllClosed;
    var units, rest := b.sections[0].units, b.sections[1..];
    var second := Section(None, units[1..]);
    RestOfFirst(b, layer);
    SoundTail(b.sections, layer);
    if units[1..] == [] {
      assert Behind(b) == rest;
    } else if rest == [] {
      assert Behind(b) == [second];
    } else {
      SoundCons(second, rest, layer);
    }
  }

  lemma SoundBefore(s: Section, rest: seq<Section>, layer: string)
    requires SectionOk(s, layer) && AllClosed(s.units) && Sound(rest, layer)
    ensures Sound([s] + rest, layer)
  {
    if rest == [] {
      assert [s] + rest == [s] && [s][..0] == [];
    } else {
      SoundCons(s, rest, layer);
    }
  }

  lemma PartedRest(b: Body, layer: string)
    requires Opens(b) && Sound(b.sections, layer) && !OneUnit(b)
    requires UnitOk(HeadUnit(b.sections[0].units[0]), layer) && Closed(HeadUnit(b.sections[0].units[0]))
    ensures Sound(Parted(b).sections, layer)
  {
    hide UnitOk, Closed, HeadUnit, Sound;
    var first := Section(None, [HeadUnit(b.sections[0].units[0])]);
    BehindSound(b, layer);
    SoundBefore(first, Behind(b), layer);
    assert Parted(b).sections == [first] + Behind(b);
  }

  lemma RestOfFirst(b: Body, layer: string)
    requires Opens(b) && Sound(b.sections, layer)
    ensures var second := Section(None, b.sections[0].units[1..]);
            && SectionOk(second, layer) && Sound([second], layer)
            && (|b.sections| > 1 ==> AllClosed(second.units))
  {
    hide UnitOk, Closed;
    var units := b.sections[0].units;
    var second := Section(None, units[1..]);
    SoundHeading(b.sections, 0, layer);
    assert [second][..0] == [];
    if |b.sections| > 1 {
      assert b.sections[..|b.sections| - 1][0] == b.sections[0];
    } else {
      forall k | 0 <= k < |Front(second.units)| ensures Closed(Front(second.units)[k]) {
        assert Front(second.units)[k] == Front(units)[k + 1];
      }
    }
  }

  lemma SoundCons(s: Section, rest: seq<Section>, layer: string)
    requires SectionOk(s, layer) && AllClosed(s.units) && rest != [] && Sound(rest, layer)
    ensures Sound([s] + rest, layer)
  {
    hide SectionOk, AllClosed;
    var n := |rest| - 1;
    var front := [s] + rest[..n];
    assert ([s] + rest)[..n + 1] == front;
    forall k | 0 <= k < |front| ensures SectionOk(front[k], layer) && AllClosed(front[k].units) {
      assert k > 0 ==> front[k] == rest[..n][k - 1];
    }
  }

  // ---- the printed text -------------------------------------------------------------------------------

  lemma {:induction false} StripTailIs(lines: seq<Line>, m: nat)
    requires m < |lines| && !Blank(lines[m]) && forall k :: m < k < |lines| ==> Blank(lines[k])
    ensures StripTail(lines) == lines[..m] + [TrimEnd(lines[m])]
  {
    var n := |lines| - 1;
    if m < n {
      StripTailIs(lines[..n], m);
      assert lines[..n][..m] == lines[..m];
    }
  }

  lemma StrippedIs(lines: seq<Line>)
    requires lines != [] && !Blank(lines[0]) && DropSpaces(lines[0]) == lines[0]
    requires !Blank(lines[|lines| - 1]) && TrimEnd(lines[|lines| - 1]) == lines[|lines| - 1]
    ensures StripHead(lines) == lines && StripTail(lines) == lines && Stripped(lines)
  {
    hide Blank;
    assert [lines[0]] + lines[1..] == lines;
    LastLineKept(lines);
  }

  lemma LastLineKept(lines: seq<Line>)
    requires lines != [] && !Blank(lines[|lines| - 1]) && TrimEnd(lines[|lines| - 1]) == lines[|lines| - 1]
    ensures StripTail(lines) == lines
  {
    assert lines[..|lines| - 1] + [lines[|lines| - 1]] == lines;
  }

  /** The line of both ends. */
  lemma OneLineEnds(line: Line)
    requires !Blank(line)
    ensures var r := TrimEnd(DropSpaces(line));
            r == DropSpaces(TrimEnd(line)) && !Blank(r) && !Blank(TrimEnd(line)) && DropSpaces(r) == r
              && TrimEnd(r) == r
  {
    hide Blank, TrimEnd, DropSpaces;
    BlankEdges(line);
    EdgesCommute(line);
    BlankEdges(DropSpaces(line));
    EdgesCommute(TrimEnd(line));
    TrimIsTrimmed(DropSpaces(line));
  }

  lemma OneLineEnd(line: Line)
    requires !Blank(line)
    ensures !Blank(DropSpaces(line)) && DropSpaces(DropSpaces(line)) == DropSpaces(line)
    ensures !Blank(TrimEnd(line)) && TrimEnd(TrimEnd(line)) == TrimEnd(line)
  {
    BlankEdges(line);
    EdgesCommute(line);
    TrimIsTrimmed(line);
  }

  /** Both ends of a text, stripped in either order. */
  lemma BothEnds(lines: seq<Line>)
    requires lines != [] && !Blank(lines[0])
    ensures var r := StripTail(StripHead(lines));
            r != [] && Stripped(r) && r == StripHead(StripTail(lines))
  {
    hide StripTail, TrimEnd, DropSpaces, Blank, Stripped;
    var m := StripTailKeeps(lines);
    OneLineEnds(lines[0]);
    OneLineEnd(lines[0]);
    OneLineEnd(lines[m]);
    var head := [DropSpaces(lines[0])] + lines[1..];
    assert StripHead(lines) == head;
    StripTailIs(head, m);
    var r := head[..m] + [TrimEnd(head[m])];
    if m == 0 {
      assert r == [TrimEnd(DropSpaces(lines[0]))];
      assert lines[..0] + [TrimEnd(lines[0])] == [TrimEnd(lines[0])];
      assert StripHead([TrimEnd(lines[0])]) == [DropSpaces(TrimEnd(lines[0]))];
    } else {
      assert StripHead(lines[..m] + [TrimEnd(lines[m])]) == r;
    }
    StrippedIs(r);
  }

  predicate TitleRead(title: Line) { title == "#" || TitleOk(title) }

  lemma {:induction false} FilledAll(sections: seq<Section>)
    requires NoneEmpty(sections)
    ensures Filled(sections) == sections
  {
    if sections != [] {
      FilledAll(sections[..|sections| - 1]);
      assert sections == sections[..|sections| - 1] + [sections[|sections| - 1]];
    }
  }

  /** The first line of a printed text: the title, the first heading, or the first unit's first line. */
  lemma FirstLine(b: Body, layer: string)
    requires b.sections != [] && b.sections[0].units != [] && Sound(b.sections, layer)
    ensures BodyText(b) != [] && b.sections[0].units[0].lines != []
    ensures BodyText(b)[0] ==
            if b.title != "" then b.title
            else match b.sections[0].heading case Some(h) => h case None => b.sections[0].units[0].lines[0]
  {
    hide Join, Chunks, SectionText, UnitsText;
    var first := b.sections[0];
    SoundHeading(b.sections, 0, layer);
    SectionEnds(first, layer);
    TextOf(b);
    assert b.sections == [first] + b.sections[1..];
    ChunksFirst(first, b.sections[1..]);
    JoinFirst(SectionText(first), Chunks(b.sections[1..]));
  }

  /** What a first line is when the text starts with no paragraph. */
  lemma PlainStart(b: Body, layer: string)
    requires b.sections != [] && b.sections[0].units != [] && Sound(b.sections, layer) && TitleRead(b.title)
    ensures BodyText(b) != [] && !Blank(BodyText(b)[0])
    ensures !Opens(b) ==> !IsSpace(BodyText(b)[0][0]) && (b.title == "" ==> !IsTitle(BodyText(b)[0]))
  {
    hide BodyText, IsCallout, InFence, IsFence;
    FirstLine(b, layer);
    SoundHeading(b.sections, 0, layer);
    var first := b.sections[0];
    var u := first.units[0];
    var line := BodyText(b)[0];
    assert UnitOk(u, layer);
    if b.title != "" {
      assert line[0] == '#';
    } else if first.heading.Some? {
      HeadingStart(line);
    } else {
      UnitHasText(u, layer);
      if u.kind != Paragraph { UnitStart(u, layer); }
    }
  }

  lemma HeadingStart(line: Line)
    requires ClassOf(line) == Heads
    ensures line != [] && line[0] == '#' && !IsSpace(line[0]) && !Blank(line) && !IsTitle(line)
  {
    HeadingIsNoTitle(line);
    assert line[0] == '#';
  }

  lemma UnitStart(u: Unit, layer: string)
    requires UnitOk(u, layer) && u.kind != Paragraph
    ensures u.lines[0] != [] && !IsSpace(u.lines[0][0]) && !IsTitle(u.lines[0])
  {
    if u.kind == Callout {
      assert u.lines[0][0] == '<';
    } else {
      FirstStarts(u.lines);
      ItemOfClass(u.lines[0]);
    }
  }

  lemma TailedHeaded(b: Body)
    requires b.sections != [] && UnderHeads(b.sections)
    ensures LastUnits(b) != [] && UnderHeads(Tailed(b).sections)
  {
    hide TailUnits;
    var n := |b.sections| - 1;
    NoUnitsLost(b.sections[n].units);
    var r := Tailed(b).sections;
    forall k | 0 <= k < |r| ensures r[k].units != [] && (r[k].heading.None? ==> k == 0) {
      assert k < n ==> r[k] == b.sections[k];
    }
  }

  /** The text printed is the tailed body's, stripped at its start. */
  lemma PrintedText(b: Body, layer: string)
    requires b.sections != [] && UnderHeads(b.sections) && Sound(b.sections, layer) && TitleRead(b.title)
    ensures LastUnits(b) != []
    ensures var text := StripHead(BodyText(Tailed(b)));
            text != [] && Stripped(text) && Render(b) == text + [""]
  {
    hide BodyText, StripHead, StripTail, Tailed, Stripped;
    PlainStart(b, layer);
    TailedHeaded(b);
    SoundHeading(b.sections, |b.sections| - 1, layer);
    TailedText(b, layer);
    BothEnds(BodyText(b));
  }

  lemma SameText(a: Body, b: Body)
    requires BodyText(a) == StripHead(BodyText(b)) && BodyText(a) != [] && Stripped(BodyText(a))
    ensures Render(a) == BodyText(a) + [""]
  {
  }

  /** A text that starts with no paragraph loses nothing at its start. */
  lemma PlainReadBack(b: Body, layer: string)
    requires b.sections != [] && UnderHeads(b.sections) && Sound(b.sections, layer) && TitleOk(b.title)
    requires LastUnits(b) != [] && !Opens(Tailed(b))
    ensures Parse(Render(b), layer) == Body(b.title, Tailed(b).sections)
  {
    hide BodyText, Tailed, Stripped, Parse, Filled, Settle;
    var t := Tailed(b);
    PrintedText(b, layer);
    TailedHeaded(b);
    TailedSound(b, layer);
    TailedTitle(b);
    PlainStart(t, layer);
    NoSpaceAhead(BodyText(t));
    SameText(t, t);
    PrintsBack(t, layer);
    SettleFills(t.sections);
    FilledAll(t.sections);
  }

  lemma TailedTitle(b: Body)
    requires LastUnits(b) != []
    ensures Tailed(b).title == b.title && Tailed(b).sections != []
  {
  }

  lemma NoSpaceAhead(lines: seq<Line>)
    requires lines != [] && !Blank(lines[0]) && lines[0] != [] && !IsSpace(lines[0][0])
    ensures StripHead(lines) == lines
  {
    assert [lines[0]] + lines[1..] == lines;
  }

  /** A text that starts with a paragraph is read back with that paragraph as its first line is then read. */
  lemma OpenReadBack(b: Body, layer: string)
    requires b.sections != [] && UnderHeads(b.sections) && Sound(b.sections, layer) && TitleOk(b.title)
    requires LastUnits(b) != [] && Opens(Tailed(b)) && HeadOk(Tailed(b))
    ensures Parse(Render(b), layer) == Body(b.title, Pared(Tailed(b)).sections)
  {
    hide BodyText, Tailed, Stripped, Parse, Settle, HeadUnit, StripHead, StripTail, UnitOk;
    var t := Tailed(b);
    PrintedText(b, layer);
    TailedHeaded(b);
    TailedSound(b, layer);
    TailedTitle(b);
    SoundHeading(t.sections, 0, layer);
    assert UnitOk(t.sections[0].units[0], layer);
    PartedBody(t, layer);
    SameText(Parted(t), t);
    PartedSound(t, layer);
    PrintsBack(Parted(t), layer);
    PartedSettles(t);
  }

  /** What a printed body is read back as: its last unit stripped at the end, then its first at the start. */
  lemma ReadBack(b: Body, layer: string)
    requires b.sections != [] && UnderHeads(b.sections) && Sound(b.sections, layer) && TitleOk(b.title)
    requires LastUnits(b) != [] && (Opens(Tailed(b)) ==> HeadOk(Tailed(b)))
    ensures Parse(Render(b), layer) == Body(b.title, Pared(Tailed(b)).sections)
  {
    if Opens(Tailed(b)) { OpenReadBack(b, layer); } else { PlainReadBack(b, layer); }
  }
}
