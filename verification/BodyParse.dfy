/** What the parser always returns: sound units, and headings only after the lead. */
module BodyParse {
  import opened Options
  import opened Text
  import opened PageBodies
  import opened BodyRender

  // ---- the parser's invariant ---------------------------------------------------------------------

  /** Every section but the first has a heading, and the first has none. */
  predicate LeadFirst(sections: seq<Section>) {
    sections != [] && forall k :: 0 <= k < |sections| ==> (sections[k].heading.None? <==> k == 0)
  }

  predicate CurrentOk(s: State) {
    match s.mode
    case Open =>
      && s.kind != Callout
      && if s.current == [] then s.kind == Paragraph
         else Runs(s.kind, s.current) && !InFence(s.current) && s.current[|s.current| - 1] != []
    case Fenced => s.kind != Callout && Runs(s.kind, s.current) && InFence(s.current)
    case InCallout => s.kind == Callout && IsCallout(s.current, false)
  }

  predicate Inv(s: State, layer: string) { LeadFirst(s.sections) && Whole(s.sections, layer) && CurrentOk(s) }

  lemma AddKeeps(sections: seq<Section>, u: Unit, layer: string)
    requires LeadFirst(sections) && Whole(sections, layer) && UnitOk(u, layer) && Closed(u)
    ensures LeadFirst(AddUnit(sections, u)) && Whole(AddUnit(sections, u), layer)
  {
    var r, n := AddUnit(sections, u), |sections| - 1;
    forall k | 0 <= k < |r|
        ensures SectionOk(r[k], layer) && AllClosed(r[k].units) && r[k].heading == sections[k].heading {
      assert SectionOk(sections[k], layer) && AllClosed(sections[k].units);
      assert k < n ==> r[k] == sections[k];
    }
  }

  lemma FlushOpen(s: State, layer: string)
    requires Inv(s, layer) && s.mode == Open
    ensures Flush(s, layer) ==
            Clean(if s.current == [] then s.sections else AddUnit(s.sections, Unit(s.kind, s.current, layer)))
    ensures Inv(Flush(s, layer), layer)
  {
    if s.current != [] {
      FlushRun(s, layer);
      AddKeeps(s.sections, Unit(s.kind, s.current, layer), layer);
    }
  }

  lemma {:induction false} TrimEndKeeps(t: string) returns (n: nat)
    ensures n <= |t| && TrimEnd(t) == t[..n] && (n == 0 || !IsSpace(t[n - 1]))
    ensures forall i :: n <= i < |t| ==> IsSpace(t[i])
  {
    n := |t|;
    if t != [] && IsSpace(t[|t| - 1]) {
      n := TrimEndKeeps(t[..|t| - 1]);
      assert t[..|t| - 1][..n] == t[..n];
    }
  }

  lemma {:induction false} RunOfPrefix(t: string, n: nat, chars: set<char>)
    requires n <= |t|
    ensures Run(t[..n], chars) == Min(n, Run(t, chars))
  {
    if n > 0 && t[0] in chars {
      RunOfPrefix(t[1..], n - 1, chars);
      assert t[..n][1..] == t[1..][..n - 1];
    }
  }

  lemma {:induction false} NotFence(line: Line)
    requires line != [] && !IsSpace(line[0]) && line[0] != '`'
    ensures !IsFence(line)
  {
    assert DropSpaces(line) == line;
    var n := TrimEndKeeps(line);
  }

  /** A heading line without its trailing white space is a heading line. */
  lemma HeadingTrimmed(line: Line)
    requires ClassOf(line) == Heads
    ensures HeadingOk(Some(TrimEnd(line)))
  {
    var n := TrimEndKeeps(line);
    var hashes := Run(line, {'#'});
    var k :| 0 <= k < |line[hashes..]| && !IsSpace(line[hashes..][k]);
    assert line[hashes + k] == line[hashes..][k];
    assert k > 0 && hashes + k < n;
    RunOfPrefix(line, n, {'#'});
    assert line[..n][hashes..][k] == line[hashes + k];
    assert line[0] == '#';
    NotFence(line[..n]);
  }

  lemma OpensWith(s: State, line: Line, kind: Kind, layer: string)
    requires LeadFirst(s.sections) && Whole(s.sections, layer) && s.current == [line] && s.kind == kind
    requires kind != Callout && MayStart(kind, line) && s.mode == if IsFence(line) then Fenced else Open
    ensures Inv(s, layer)
  {
    StartNotBlank(kind, line);
    assert [line][..|[line]| - 1] == [];
    assert InFence([line]) == IsFence(line);
  }

  lemma GoesOn(s: State, line: Line, layer: string)
    requires Inv(s, layer) && s.current != [] && s.mode != InCallout && (s.mode == Fenced || MayContinue(s.kind, line))
    ensures Inv(Eat(s, line, layer), layer)
  {
    EatOn(s, line, layer);
    assert (s.current + [line])[..|s.current|] == s.current;
    if Blank(line) {
      BlankDrops(line);
    }
  }

  lemma HeadsNew(s: State, heading: Line, layer: string)
    requires Inv(s, layer) && HeadingOk(Some(heading)) && s.current == [] && s.mode == Open
    ensures Inv(s.(sections := s.sections + [Section(Some(heading), [])]), layer)
  {
    var r := s.sections + [Section(Some(heading), [])];
    forall k | 0 <= k < |r| ensures SectionOk(r[k], layer) && AllClosed(r[k].units) {
      if k < |s.sections| { assert r[k] == s.sections[k]; }
    }
  }

  lemma EatBlock(s: State, line: Line, layer: string)
    requires Inv(s, layer) && s.mode == InCallout
    ensures Inv(Eat(s, line, layer), layer)
  {
    var taken := s.current + [line];
    assert taken[1..|taken| - 1] == s.current[1..];
    assert taken[1..] == s.current[1..] + [line];
    if CALLOUT_END <= line {
      AddKeeps(s.sections, Unit(Callout, taken, layer), layer);
    }
  }

  lemma EatKeeps(s: State, line: Line, layer: string)
    requires Inv(s, layer)
    ensures Inv(Eat(s, line, layer), layer)
  {
    if s.mode == Fenced {
      GoesOn(s, line, layer);
    } else if s.mode == InCallout {
      EatBlock(s, line, layer);
    } else {
      EatOpen(s, line, layer);
    }
  }

  lemma EatOpen(s: State, line: Line, layer: string)
    requires Inv(s, layer) && s.mode == Open
    ensures Inv(Eat(s, line, layer), layer)
  {
    FlushOpen(s, layer);
    var flushed := Flush(s, layer);
    match ClassOf(line)
    case StartsCallout => {
    }
    case Fences => {
      if s.kind == Item { GoesOn(s, line, layer); } else { OpensWith(Eat(s, line, layer), line, Paragraph, layer); }
    }
    case Heads => {
      HeadingTrimmed(line);
      HeadsNew(flushed, TrimEnd(line), layer);
    }
    case Empty => {
    }
    case StartsItem => {
      OpensWith(Eat(s, line, layer), line, Item, layer);
    }
    case Continues => {
      if s.current == [] { OpensWith(Eat(s, line, layer), line, Paragraph, layer); } else { GoesOn(s, line, layer); }
    }
  }

  lemma {:induction false} EatAllKeeps(lines: seq<Line>, layer: string)
    ensures Inv(EatAll(Clean(START), lines, layer), layer)
  {
    if lines == [] {
    } else {
      var n := |lines| - 1;
      EatAllKeeps(lines[..n], layer);
      EatKeeps(EatAll(Clean(START), lines[..n], layer), lines[n], layer);
    }
  }

  /** What is being read ends with the line read last. */
  lemma LastLine(s: State, line: Line, layer: string)
    requires Inv(s, layer)
    ensures var r := Eat(s, line, layer); r.current != [] ==> r.current[|r.current| - 1] == line
  {
    hide ClassOf, Runs, InFence;
    if s.mode == Open { FlushOpen(s, layer); }
  }

  lemma FinishOpen(s: State, layer: string)
    requires Inv(s, layer) && s.mode == Open
    ensures Sound(Finish(s, layer), layer) && LeadFirst(Finish(s, layer))
    ensures Finish(s, layer) == if s.current == [] then s.sections
            else AddUnit(s.sections, Unit(s.kind, s.current, layer))
  {
    hide ClassOf, Runs, InFence;
    FlushOpen(s, layer);
    WholeIsSound(Finish(s, layer), layer);
  }

  lemma FinishOther(s: State, layer: string)
    requires Inv(s, layer) && s.mode != Open && s.current[|s.current| - 1] != []
    ensures Sound(Finish(s, layer), layer) && LeadFirst(Finish(s, layer))
    ensures Finish(s, layer) == AddUnit(s.sections, Unit(s.kind, s.current, layer))
  {
    hide ClassOf;
    if s.mode == Fenced { FlushRun(s, layer); }
    AddOpen(s.sections, Unit(s.kind, s.current, layer), layer);
  }

  lemma FinishSound(s: State, layer: string)
    requires Inv(s, layer) && (s.current != [] ==> s.current[|s.current| - 1] != [])
    ensures Sound(Finish(s, layer), layer) && LeadFirst(Finish(s, layer))
    ensures Finish(s, layer) == if s.current == [] then s.sections
            else AddUnit(s.sections, Unit(s.kind, s.current, layer))
  {
    hide Finish;
    if s.mode == Open { FinishOpen(s, layer); } else { FinishOther(s, layer); }
  }

  lemma AddOpen(sections: seq<Section>, u: Unit, layer: string)
    requires LeadFirst(sections) && Whole(sections, layer) && UnitOk(u, layer)
    ensures Sound(AddUnit(sections, u), layer) && LeadFirst(AddUnit(sections, u))
  {
    var r, n := AddUnit(sections, u), |sections| - 1;
    assert r[..n] == sections[..n];
    assert Front(r[n].units) == sections[n].units;
    assert SectionOk(sections[n], layer);
    forall k | 0 <= k < |r| ensures r[k].heading == sections[k].heading { assert k < n ==> r[k] == sections[k]; }
  }

  lemma ParseFromSound(lines: seq<Line>, layer: string)
    requires lines != [] ==> lines[|lines| - 1] != []
    ensures Sound(ParseFrom(lines, layer), layer) && LeadFirst(ParseFrom(lines, layer))
  {
    EatAllKeeps(lines, layer);
    if lines != [] {
      var n := |lines| - 1;
      EatAllKeeps(lines[..n], layer);
      LastLine(EatAll(Clean(START), lines[..n], layer), lines[n], layer);
    }
    FinishSound(EatAll(Clean(START), lines, layer), layer);
  }

  lemma {:induction false} KeepsHeaded(sections: seq<Section>)
    requires forall k :: 0 <= k < |sections| ==> sections[k].heading.Some?
    ensures Keep(sections) == sections
  {
    if sections != [] {
      var n := |sections| - 1;
      KeepsHeaded(sections[..n]);
      assert sections[..n] + [sections[n]] == sections;
    }
  }

  /** Only an empty lead is dropped. */
  lemma {:induction false} KeepOf(sections: seq<Section>)
    requires LeadFirst(sections)
    ensures Keep(sections) == if sections[0].units == [] then sections[1..] else sections
  {
    var n := |sections| - 1;
    assert sections == sections[..n] + [sections[n]];
    if n == 0 {
      assert Keep(sections[..n]) == [];
    } else {
      KeepOf(sections[..n]);
      assert sections[1..] == sections[..n][1..] + [sections[n]];
    }
  }

  lemma {:induction false} TrimLast(lines: seq<Line>)
    ensures var r := TrimEmpty(lines); r != [] ==> r[|r| - 1] != []
  {
    if lines != [] && lines[|lines| - 1] == [] { TrimLast(lines[..|lines| - 1]); } else { DropLast(lines); }
  }

  lemma {:induction false} DropLast(lines: seq<Line>)
    requires lines != [] ==> lines[|lines| - 1] != []
    ensures var r := DropEmpty(lines); r != [] ==> r[|r| - 1] != []
  {
    if lines != [] && lines[0] == [] { DropLast(lines[1..]); }
  }

  lemma {:induction false} SkipLast(lines: seq<Line>)
    requires lines != [] ==> lines[|lines| - 1] != []
    ensures var r := SkipBlank(lines); r != [] ==> r[|r| - 1] != [] && !Blank(r[0])
  {
    if lines != [] && Blank(lines[0]) { SkipLast(lines[1..]); }
  }

  /** Whatever the text: sound sections, a heading on every one but a lead with units. */
  lemma ParseSound(text: seq<Line>, layer: string)
    ensures var b := Parse(text, layer);
            && Sound(b.sections, layer)
            && (forall k :: 0 <= k < |b.sections| ==>
                (b.sections[k].heading.None? ==> k == 0 && b.sections[k].units != []))
  {
    hide Keep, ParseFrom;
    var lines := SkipBlank(TrimEmpty(text));
    TrimLast(text);
    SkipLast(TrimEmpty(text));
    var rest := if lines != [] && IsTitle(lines[0]) then lines[1..] else lines;
    ParseFromSound(rest, layer);
    var all := ParseFrom(rest, layer);
    KeepOf(all);
    if all[0].units == [] {
      SoundTail(all, layer);
    }
  }

  lemma SoundTail(sections: seq<Section>, layer: string)
    requires sections != [] && Sound(sections, layer)
    ensures Sound(sections[1..], layer)
  {
    hide SectionOk;
    var n := |sections| - 1;
    if n > 0 {
      assert sections[1..][n - 1] == sections[n];
      var middle := sections[1..][..n - 1];
      forall k | 0 <= k < |middle| ensures SectionOk(middle[k], layer) && AllClosed(middle[k].units) {
        assert middle[k] == sections[..n][k + 1];
      }
    }
  }
}
