/** What the parser makes of lines: how each class of lines is written, and that nothing but blank lines is lost. */
module BodyKeeps {
  import opened Options
  import opened Text
  import opened PageBodies
  import opened BodyRender
  import opened BodyParse
  import opened BodyRoundTrip
  import opened BodyNormal
  import opened BodyEdges

  // ---- how lines are written --------------------------------------------------------------------------

  lemma {:induction false} RunIs(t: string, chars: set<char>)
    ensures var n := Run(t, chars);
            && (forall k :: 0 <= k < n ==> t[k] in chars) && (n < |t| ==> t[n] !in chars)
  {
    if t != [] && t[0] in chars {
      RunIs(t[1..], chars);
      assert forall k :: 0 < k < Run(t, chars) ==> t[k] == t[1..][k - 1];
    }
  }

  lemma RunOnce(t: string, chars: set<char>, n: nat)
    requires n <= |t| && (forall k :: 0 <= k < n ==> t[k] in chars) && (n < |t| ==> t[n] !in chars)
    ensures Run(t, chars) == n
  {
    RunIs(t, chars);
  }

  /** Two to six marks, white space after them, and something at `m` after that. */
  predicate HeadingAt(line: Line, n: nat, m: nat) {
    && 2 <= n <= 6 && n < m < |line| && (forall k :: 0 <= k < n ==> line[k] == '#')
    && IsSpace(line[n]) && !IsSpace(line[m])
  }

  /** Exactly the heading lines. */
  lemma HeadingLine(line: Line)
    ensures IsHeading(line) <==> exists n: nat, m: nat :: HeadingAt(line, n, m)
  {
    RunIs(line, {'#'});
    if IsHeading(line) {
      var n := Run(line, {'#'});
      var k :| 0 <= k < |line[n..]| && !IsSpace(line[n..][k]);
      assert line[n + k] == line[n..][k] && k > 0;
      assert HeadingAt(line, n, n + k);
    }
    forall n: nat, m: nat | HeadingAt(line, n, m) ensures IsHeading(line) {
      RunOnce(line, {'#'}, n);
      assert line[n..][m - n] == line[m];
    }
  }

  /** A dash, a star or a plus, and white space after it. */
  predicate Bulleted(line: Line) { |line| > 1 && line[0] in {'-', '*', '+'} && IsSpace(line[1]) }

  /** One to nine digits, a point or a bracket, and white space after it. */
  predicate NumberedAt(line: Line, n: nat) {
    && 1 <= n <= 9 && n + 1 < |line| && (forall k :: 0 <= k < n ==> '0' <= line[k] <= '9')
    && line[n] in {'.', ')'} && IsSpace(line[n + 1])
  }

  /** Exactly the first lines of items. */
  lemma ItemLine(line: Line)
    ensures IsItem(line) <==> Bulleted(line) || exists n: nat :: NumberedAt(line, n)
  {
    RunIs(line, DIGITS);
    assert forall c :: c in DIGITS <==> '0' <= c <= '9';
    if IsItem(line) && !Bulleted(line) { assert NumberedAt(line, Run(line, DIGITS)); }
    forall n: nat | NumberedAt(line, n) ensures IsItem(line) { RunOnce(line, DIGITS, n); }
  }

  /** Three marks after white space, if any. */
  predicate FenceAt(line: Line, n: nat) { n + 3 <= |line| && Blank(line[..n]) && line[n..n + 3] == FENCE }

  /** Exactly the fence lines. */
  lemma FenceLine(line: Line)
    ensures IsFence(line) <==> exists n: nat :: FenceAt(line, n)
  {
    var n := DropSpacesKeeps(line);
    var rest := DropSpaces(line);
    var m := TrimEndKeeps(rest);
    if IsFence(line) {
      assert FENCE <= rest[..m];
      assert line[n..n + 3] == FENCE;
      assert FenceAt(line, n);
    }
    forall k: nat | FenceAt(line, k) ensures IsFence(line) {
      assert line[k..k + 3][0] == line[k] && line[k..k + 3][2] == line[k + 2];
      SpacesOnce(line, n, k);
      assert rest[2] == '`';
      assert rest[..m][..3] == line[k..k + 3];
    }
  }

  lemma SpacesOnce(line: Line, n: nat, k: nat)
    requires n <= |line| && Blank(line[..n]) && (n < |line| ==> !IsSpace(line[n]))
    requires k < |line| && Blank(line[..k]) && !IsSpace(line[k])
    ensures n == k
  {
    assert forall i :: 0 <= i < k ==> line[..k][i] == line[i];
    assert forall i :: 0 <= i < n ==> line[..n][i] == line[i];
  }

  // ---- what lines say ---------------------------------------------------------------------------------

  /** The lines that are not blank, without the white space at their ends. */
  function Said(lines: seq<Line>): seq<Line> {
    if lines == [] then []
    else
      var last := lines[|lines| - 1];
      Said(lines[..|lines| - 1]) + if Blank(last) then [] else [TrimEnd(last)]
  }

  function SaidUnits(units: seq<Unit>): seq<Line> {
    if units == [] then [] else SaidUnits(units[..|units| - 1]) + Said(units[|units| - 1].lines)
  }

  /** What sections say, heading by heading and unit by unit. */
  function SaidSections(sections: seq<Section>): seq<Line> {
    if sections == [] then []
    else
      var last := sections[|sections| - 1];
      SaidSections(sections[..|sections| - 1]) + (if last.heading.Some? then Said([last.heading.value]) else [])
      + SaidUnits(last.units)
  }

  lemma {:induction false} SaidAppends(a: seq<Line>, b: seq<Line>)
    ensures Said(a + b) == Said(a) + Said(b)
  {
    hide Blank, TrimEnd;
    if b == [] {
      assert a + b == a;
    } else {
      var n := |b| - 1;
      SaidAppends(a, b[..n]);
      assert (a + b)[..|a + b| - 1] == a + b[..n] && (a + b)[|a + b| - 1] == b[n];
      var last := if Blank(b[n]) then [] else [TrimEnd(b[n])];
      assert Said(a + b) == Said(a + b[..n]) + last && Said(b) == Said(b[..n]) + last;
    }
  }

  lemma SaidOne(line: Line)
    ensures Said([line]) == if Blank(line) then [] else [TrimEnd(line)]
  {
    assert [line][..0] == [];
  }

  lemma {:induction false} SaidBlank(lines: seq<Line>)
    requires forall i :: 0 <= i < |lines| ==> Blank(lines[i])
    ensures Said(lines) == []
  {
    if lines != [] { SaidBlank(lines[..|lines| - 1]); }
  }

  lemma EmptySaysNothing(line: Line)
    requires line == []
    ensures Blank(line) && Said([line]) == []
  {
    SaidOne(line);
  }

  lemma {:induction false} DropSays(lines: seq<Line>)
    ensures Said(DropEmpty(lines)) == Said(lines)
  {
    if lines != [] && lines[0] == [] {
      DropSays(lines[1..]);
      EmptySaysNothing(lines[0]);
      SaidAppends([lines[0]], lines[1..]);
      assert [lines[0]] + lines[1..] == lines;
    }
  }

  lemma {:induction false} TrimSays(lines: seq<Line>)
    ensures Said(TrimEmpty(lines)) == Said(lines)
  {
    if lines != [] && lines[|lines| - 1] == [] {
      TrimSays(lines[..|lines| - 1]);
      EmptySaysNothing(lines[|lines| - 1]);
    } else {
      DropSays(lines);
    }
  }

  lemma {:induction false} SkipSays(lines: seq<Line>)
    ensures Said(SkipBlank(lines)) == Said(lines)
  {
    if lines != [] && Blank(lines[0]) {
      SkipSays(lines[1..]);
      SaidOne(lines[0]);
      SaidAppends([lines[0]], lines[1..]);
      assert [lines[0]] + lines[1..] == lines;
    }
  }

  lemma AddSays(sections: seq<Section>, u: Unit)
    requires sections != []
    ensures SaidSections(AddUnit(sections, u)) == SaidSections(sections) + Said(u.lines)
  {
    var n := |sections| - 1;
    var last := sections[n];
    assert AddUnit(sections, u)[..n] == sections[..n];
    assert (last.units + [u])[..|last.units|] == last.units;
  }

  lemma HeadSays(sections: seq<Section>, line: Line)
    requires !Blank(line)
    ensures SaidSections(sections + [Section(Some(TrimEnd(line)), [])]) == SaidSections(sections) + Said([line])
  {
    assert (sections + [Section(Some(TrimEnd(line)), [])])[..|sections|] == sections;
    SaidOne(line);
    SaidOne(TrimEnd(line));
    TrimIsTrimmed(line);
    BlankEdges(line);
  }

  function SaidState(s: State): seq<Line> { SaidSections(s.sections) + Said(s.current) }

  lemma FlushSays(s: State, layer: string)
    requires s.sections != []
    ensures SaidSections(Flush(s, layer).sections) == SaidState(s)
  {
    hide SaidSections;
    if exists i :: 0 <= i < |s.current| && !Blank(s.current[i]) {
      AddSays(s.sections, Unit(s.kind, TrimEmpty(s.current), layer));
      TrimSays(s.current);
    } else {
      SaidBlank(s.current);
    }
  }

  lemma ClassSays(line: Line)
    ensures ClassOf(line) == Empty ==> Blank(line)
    ensures ClassOf(line) == Heads ==> !Blank(line)
  {
    if ClassOf(line) == Heads { assert line[0] == '#'; }
  }

  /** Each line read adds what it says. */
  lemma EatSays(s: State, line: Line, layer: string)
    requires s.sections != []
    ensures SaidState(Eat(s, line, layer)) == SaidState(s) + Said([line])
  {
    hide SaidSections, Said, ClassOf, Flush, TrimEmpty;
    SaidAppends(s.current, [line]);
    SaidNothing();
    if s.mode == Open {
      FlushSays(s, layer);
      SaidOne(line);
      ClassSays(line);
      if ClassOf(line) == Heads { HeadSays(Flush(s, layer).sections, line); }
    } else if s.mode == InCallout {
      AddSays(s.sections, Unit(Callout, s.current + [line], layer));
    }
  }

  lemma SaidNothing()
    ensures Said([]) == [] && SaidSections([]) == [] && SaidSections(START) == []
  {
    assert START[..0] == [];
  }

  lemma {:induction false} EatAllSays(s: State, lines: seq<Line>, layer: string)
    requires s.sections != []
    ensures SaidState(EatAll(s, lines, layer)) == SaidState(s) + Said(lines)
  {
    hide SaidState, Eat;
    if lines == [] {
      SaidNothing();
    } else {
      var n := |lines| - 1;
      EatAllSays(s, lines[..n], layer);
      EatSays(EatAll(s, lines[..n], layer), lines[n], layer);
      SaidOne(lines[n]);
    }
  }

  lemma {:induction false} KeepSays(sections: seq<Section>)
    ensures SaidSections(Keep(sections)) == SaidSections(sections)
  {
    if sections != [] {
      var n := |sections| - 1;
      KeepSays(sections[..n]);
      if sections[n].heading.None? && sections[n].units == [] {
        assert Keep(sections) == Keep(sections[..n]);
      } else {
        assert (Keep(sections[..n]) + [sections[n]])[..|Keep(sections[..n])|] == Keep(sections[..n]);
      }
    }
  }

  lemma ParseFromSays(lines: seq<Line>, layer: string)
    ensures SaidSections(Keep(ParseFrom(lines, layer))) == Said(lines)
  {
    hide SaidSections, Said, Keep, EatAll, Flush;
    var s := EatAll(Clean(START), lines, layer);
    EatAllSays(Clean(START), lines, layer);
    SaidNothing();
    FlushSays(s, layer);
    AddSays(s.sections, Unit(Callout, s.current, layer));
    KeepSays(ParseFrom(lines, layer));
  }

  /** Parsing loses nothing but blank lines, and makes nothing up: the title, headings and units of a text say, in
      order, exactly what its lines say. */
  lemma ParseKeeps(text: seq<Line>, layer: string)
    ensures var b := Parse(text, layer); Said([b.title]) + SaidSections(b.sections) == Said(text)
  {
    hide SaidSections, Said, Keep, ParseFrom;
    var lines := SkipBlank(TrimEmpty(text));
    TrimSays(text);
    SkipSays(TrimEmpty(text));
    if lines != [] && IsTitle(lines[0]) {
      ParseFromSays(lines[1..], layer);
      TitleSays(lines[0]);
      SaidAppends([lines[0]], lines[1..]);
      assert [lines[0]] + lines[1..] == lines;
    } else {
      ParseFromSays(lines, layer);
      EmptySaysNothing("");
    }
  }

  lemma TitleSays(line: Line)
    ensures Said([TrimEnd(line)]) == Said([line])
  {
    SaidOne(line);
    SaidOne(TrimEnd(line));
    TrimIsTrimmed(line);
    if !Blank(line) { BlankEdges(line); } else { TrimBlank(line); }
  }

  lemma {:induction false} TrimBlank(line: Line)
    requires Blank(line)
    ensures TrimEnd(line) == []
  {
    if line != [] { TrimBlank(line[..|line| - 1]); }
  }
}
