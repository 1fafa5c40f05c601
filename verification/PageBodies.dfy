/** Page bodies: a title, then sections of units. A body's text is a sequence of lines, none of which
    holds a line feed; the text is the lines joined by line feeds. */
module PageBodies {
  import opened Options
  import opened Text

  type Line = string

  const CALLOUT_START := "<!-- stigmergy-contradiction-start:"
  const CALLOUT_END := "<!-- stigmergy-contradiction-end:"
  const FENCE := "```"
  const PUBLIC := "public"

  datatype Kind = Item | Paragraph | Callout

  datatype Unit = Unit(kind: Kind, lines: seq<Line>, layer: string)

  /** `None` heads the units before the first heading. */
  datatype Section = Section(heading: Option<Line>, units: seq<Unit>)

  /** An empty title is none. */
  datatype Body = Body(title: Line, sections: seq<Section>)

  // ---- the classes of lines ---------------------------------------------------------------------

  predicate IsFence(line: Line) { FENCE <= Strip(line) }

  predicate IsHeading(line: Line) {
    var hashes := Run(line, {'#'});
    2 <= hashes <= 6 && hashes < |line| && IsSpace(line[hashes]) && !Blank(line[hashes..])
  }

  const DIGITS := {'0', '1', '2', '3', '4', '5', '6', '7', '8', '9'}

  predicate IsItem(line: Line) {
    var digits := Run(line, DIGITS);
    || (|line| > 1 && line[0] in {'-', '*', '+'} && IsSpace(line[1]))
    || (1 <= digits <= 9 && digits + 1 < |line| && line[digits] in {'.', ')'} && IsSpace(line[digits + 1]))
  }

  predicate IsTitle(line: Line) { "# " <= line }

  datatype Class = StartsCallout | Fences | Heads | Empty | StartsItem | Continues

  /** The first test that holds decides. */
  function ClassOf(line: Line): Class {
    if CALLOUT_START <= line then StartsCallout
    else if IsFence(line) then Fences
    else if IsHeading(line) then Heads
    else if Blank(line) then Empty
    else if IsItem(line) then StartsItem
    else Continues
  }

  /** Text without its empty first and last lines. */
  function DropEmpty(lines: seq<Line>): seq<Line> {
    if lines != [] && lines[0] == [] then DropEmpty(lines[1..]) else lines
  }

  function TrimEmpty(lines: seq<Line>): seq<Line> {
    if lines != [] && lines[|lines| - 1] == [] then TrimEmpty(lines[..|lines| - 1]) else DropEmpty(lines)
  }

  function SkipBlank(lines: seq<Line>): seq<Line> {
    if lines != [] && Blank(lines[0]) then SkipBlank(lines[1..]) else lines
  }

  // ---- the parser -----------------------------------------------------------------------------------

  datatype Mode = Open | Fenced | InCallout

  /** What is parsed so far and the unit being read; there is always a section. */
  datatype State = State(sections: seq<Section>, current: seq<Line>, kind: Kind, mode: Mode)

  function AddUnit(sections: seq<Section>, unit: Unit): (r: seq<Section>)
    requires sections != []
    ensures |r| == |sections|
  {
    var last := sections[|sections| - 1];
    sections[..|sections| - 1] + [last.(units := last.units + [unit])]
  }

  function Clean(sections: seq<Section>): State { State(sections, [], Paragraph, Open) }

  function Flush(s: State, layer: string): (r: State)
    requires s.sections != []
    ensures r.sections != [] && r.current == [] && r.kind == Paragraph && r.mode == Open
  {
    if exists i :: 0 <= i < |s.current| && !Blank(s.current[i])
    then Clean(AddUnit(s.sections, Unit(s.kind, TrimEmpty(s.current), layer)))
    else Clean(s.sections)
  }

  function Eat(s: State, line: Line, layer: string): (r: State)
    requires s.sections != []
    ensures r.sections != []
  {
    var taken := s.current + [line];
    if s.mode == Fenced then s.(current := taken, mode := if IsFence(line) then Open else Fenced)
    else if s.mode == InCallout then
      if CALLOUT_END <= line then Clean(AddUnit(s.sections, Unit(Callout, taken, layer))) else s.(current := taken)
    else
      var flushed := Flush(s, layer);
      match ClassOf(line)
      case StartsCallout => flushed.(current := [line], kind := Callout, mode := InCallout)
      case Fences => if s.kind == Item then s.(current := taken, mode := Fenced)
        else flushed.(current := [line], mode := Fenced)
      case Heads => flushed.(sections := flushed.sections + [Section(Some(TrimEnd(line)), [])])
      case Empty => flushed
      case StartsItem => flushed.(current := [line], kind := Item)
      case Continues => if s.current == [] then s.(current := taken, kind := Paragraph) else s.(current := taken)
  }

  function EatAll(s: State, lines: seq<Line>, layer: string): (r: State)
    requires s.sections != []
    ensures r.sections != []
  {
    if lines == [] then s else Eat(EatAll(s, lines[..|lines| - 1], layer), lines[|lines| - 1], layer)
  }

  /** The end of the text ends whatever is open. */
  function Finish(s: State, layer: string): (r: seq<Section>)
    requires s.sections != []
    ensures r != []
  {
    if s.mode == InCallout then AddUnit(s.sections, Unit(Callout, s.current, layer)) else Flush(s, layer).sections
  }

  /** A section with neither heading nor units is none. */
  function Keep(sections: seq<Section>): seq<Section> {
    if sections == [] then []
    else
      var last := sections[|sections| - 1];
      Keep(sections[..|sections| - 1]) + (if last.heading.None? && last.units == [] then [] else [last])
  }

  const START := [Section(None, [])]

  function ParseFrom(lines: seq<Line>, layer: string): seq<Section> {
    Finish(EatAll(Clean(START), lines, layer), layer)
  }

  function Parse(text: seq<Line>, layer: string): Body {
    var lines := SkipBlank(TrimEmpty(text));
    if lines != [] && IsTitle(lines[0]) then Body(TrimEnd(lines[0]), Keep(ParseFrom(lines[1..], layer)))
    else Body("", Keep(ParseFrom(lines, layer)))
  }

  lemma {:induction false} EatAppends(s: State, a: seq<Line>, b: seq<Line>, layer: string)
    requires s.sections != []
    ensures EatAll(s, a + b, layer) == EatAll(EatAll(s, a, layer), b, layer)
  {
    if b == [] {
      assert a + b == a;
    } else {
      var n := |b| - 1;
      EatAppends(s, a, b[..n], layer);
      assert (a + b)[..|a + b| - 1] == a + b[..n];
    }
  }

  // ---- the loops --------------------------------------------------------------------------------------

  /** No line is the end line of a callout. */
  predicate NoneEnds(lines: seq<Line>) { forall k :: 0 <= k < |lines| ==> !(CALLOUT_END <= lines[k]) }

  /** The lines of a callout: one starts it, and only the last ends it, if the callout has ended. */
  predicate IsCallout(block: seq<Line>, ended: bool) {
    && block != [] && CALLOUT_START <= block[0]
    && if ended then |block| > 1 && NoneEnds(block[1..|block| - 1]) && CALLOUT_END <= block[|block| - 1]
       else NoneEnds(block[1..])
  }

  lemma {:induction false} EatInner(s: State, lines: seq<Line>, layer: string)
    requires s.sections != [] && s.mode == InCallout && NoneEnds(lines)
    ensures EatAll(s, lines, layer) == s.(current := s.current + lines)
  {
    if lines == [] {
      assert s.current + lines == s.current;
    } else {
      var n := |lines| - 1;
      EatInner(s, lines[..n], layer);
      assert s.current + lines[..n] + [lines[n]] == s.current + lines;
    }
  }

  lemma EatStart(s: State, line: Line, layer: string)
    requires s.sections != [] && s.mode == Open && CALLOUT_START <= line
    ensures EatAll(s, [line], layer) == State(Flush(s, layer).sections, [line], Callout, InCallout)
  {
    assert [line][..0] == [];
  }

  lemma EatOpenCallout(s: State, block: seq<Line>, layer: string)
    requires s.sections != [] && s.mode == Open && IsCallout(block, false)
    ensures EatAll(s, block, layer) == State(Flush(s, layer).sections, block, Callout, InCallout)
  {
    EatStart(s, block[0], layer);
    EatInner(EatAll(s, [block[0]], layer), block[1..], layer);
    EatAppends(s, [block[0]], block[1..], layer);
    assert [block[0]] + block[1..] == block;
  }

  lemma EatEnd(s: State, line: Line, layer: string)
    requires s.sections != [] && s.mode == InCallout && CALLOUT_END <= line
    ensures EatAll(s, [line], layer) == Clean(AddUnit(s.sections, Unit(Callout, s.current + [line], layer)))
  {
    assert [line][..0] == [];
  }

  lemma EatCallout(s: State, block: seq<Line>, layer: string)
    requires s.sections != [] && s.mode == Open && IsCallout(block, true)
    ensures EatAll(s, block, layer) == Clean(AddUnit(Flush(s, layer).sections, Unit(Callout, block, layer)))
  {
    hide EatAll, Flush;
    var n := |block| - 1;
    assert block[..n][1..] == block[1..n];
    EatOpenCallout(s, block[..n], layer);
    EatEnd(EatAll(s, block[..n], layer), block[n], layer);
    EatAppends(s, block[..n], [block[n]], layer);
    assert block[..n] + [block[n]] == block;
  }

  /** Takes a callout from its start line through its end line, or to the end of the text. */
  method TakeCallout(lines: seq<Line>, start: nat) returns (block: seq<Line>, index: nat, ended: bool)
    requires start < |lines| && CALLOUT_START <= lines[start]
    ensures start < index <= |lines| && block == lines[start..index]
    ensures IsCallout(block, ended) && (!ended ==> index == |lines|)
  {
    block, index, ended := [lines[start]], start + 1, false;
    while index < |lines| && !ended
      invariant start < index <= |lines| && block == lines[start..index] && IsCallout(block, ended)
      decreases |lines| - index
    {
      var line := lines[index];
      assert (block + [line])[1..|block|] == block[1..];
      assert (block + [line])[1..] == block[1..] + [line];
      block := block + [line];
      index := index + 1;
      ended := CALLOUT_END <= line;
    }
  }

  /** One turn of the loop that reads a body, outside callouts. */
  method ReadLine(s: State, line: Line, layer: string) returns (r: State)
    requires s.sections != [] && s.mode != InCallout && (s.mode == Open ==> !(CALLOUT_START <= line))
    ensures r == Eat(s, line, layer) && r.sections != []
  {
    var sections, current, kind, fenced := s.sections, s.current, s.kind, s.mode == Fenced;
    if fenced {
      current := current + [line];
      if IsFence(line) { fenced := false; }
    } else if IsFence(line) {
      if kind != Item {
        sections, current, kind := Flush(s, layer).sections, [], Paragraph;
      }
      current := current + [line];
      fenced := true;
    } else if IsHeading(line) {
      sections, current, kind := Flush(s, layer).sections + [Section(Some(TrimEnd(line)), [])], [], Paragraph;
    } else if Blank(line) {
      sections, current, kind := Flush(s, layer).sections, [], Paragraph;
    } else if IsItem(line) {
      sections, current, kind := Flush(s, layer).sections, [line], Item;
    } else {
      if current == [] { kind := Paragraph; }
      current := current + [line];
    }
    r := State(sections, current, kind, if fenced then Fenced else Open);
  }

  method ParseBody(text: seq<Line>, layer: string) returns (body: Body)
    ensures body == Parse(text, layer)
  {
    var lines := TrimEmpty(text);
    var start := 0;
    while start < |lines| && Blank(lines[start])
      invariant start <= |lines| && SkipBlank(lines) == SkipBlank(lines[start..])
    {
      assert lines[start..][1..] == lines[start + 1..];
      start := start + 1;
    }
    var title := "";
    if start < |lines| && IsTitle(lines[start]) {
      title := TrimEnd(lines[start]);
      assert lines[start..][1..] == lines[start + 1..];
      start := start + 1;
    }
    var sections := ReadSections(lines[start..], layer);
    body := Body(title, Keep(sections));
  }

  /** One turn of that loop at the start of a callout. */
  method ReadCallout(s: State, lines: seq<Line>, index: nat, layer: string) returns (r: State, next: nat)
    requires s.sections != [] && s.mode == Open && index < |lines| && CALLOUT_START <= lines[index]
    ensures index < next <= |lines| && r.sections != [] && (r.mode == InCallout ==> next == |lines|)
    ensures r == EatAll(s, lines[index..next], layer)
  {
    var sections := Flush(s, layer).sections;
    var block, stop, ended := TakeCallout(lines, index);
    next := stop;
    if ended {
      EatCallout(s, block, layer);
      r := Clean(AddUnit(sections, Unit(Callout, block, layer)));
    } else {
      EatOpenCallout(s, block, layer);
      r := State(sections, block, Callout, InCallout);
    }
  }

  lemma EatOne(s: State, line: Line, layer: string)
    requires s.sections != []
    ensures EatAll(s, [line], layer) == Eat(s, line, layer)
  {
    assert [line][..0] == [];
  }

  lemma ReadOn(lines: seq<Line>, from: nat, to: nat, s: State, layer: string)
    requires from <= to <= |lines|
    requires s == EatAll(Clean(START), lines[..from], layer)
    ensures EatAll(Clean(START), lines[..to], layer) == EatAll(s, lines[from..to], layer)
  {
    hide EatAll;
    EatAppends(Clean(START), lines[..from], lines[from..to], layer);
    assert lines[..from] + lines[from..to] == lines[..to];
  }

  method ReadSections(lines: seq<Line>, layer: string) returns (sections: seq<Section>)
    ensures sections == ParseFrom(lines, layer)
  {
    var s := Clean(START);
    var index := 0;
    while index < |lines|
      invariant index <= |lines| && s.sections != []
      invariant s.mode == InCallout ==> index == |lines|
      invariant s == EatAll(Clean(START), lines[..index], layer)
    {
      var next := index + 1;
      ghost var before := s;
      if s.mode == Open && CALLOUT_START <= lines[index] {
        s, next := ReadCallout(s, lines, index, layer);
      } else {
        s := ReadLine(s, lines[index], layer);
        EatOne(before, lines[index], layer);
        assert lines[index..next] == [lines[index]];
        StaysOut(before, lines[index], layer);
      }
      ReadOn(lines, index, next, before, layer);
      index := next;
    }
    assert lines[..index] == lines;
    sections := Finish(s, layer);
  }

  lemma StaysOut(s: State, line: Line, layer: string)
    requires s.sections != [] && s.mode != InCallout && (s.mode == Open ==> !(CALLOUT_START <= line))
    ensures Eat(s, line, layer).mode != InCallout
  {
  }
}
