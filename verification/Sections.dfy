/** Sections of a body at its headings, and the merging of sections too short to stand alone. */
module Sections {
  import opened Options
  import opened Text
  import opened LineCutter
  import opened Windows

  const MIN_SECTION_WORDS := 40
  const HEADING_CHARS := 120
  const TRAIL_CHARS := 300

  /** Lines `first` to `last`, exclusive, under the heading trail `trail`. */
  datatype Section = Section(first: nat, last: nat, trail: string)

  datatype Heading = Heading(level: nat, name: string)

  // ---- headings and fences ------------------------------------------------------------------

  function Take(t: string, n: nat): (r: string)
    ensures |r| <= n && r <= t
  {
    if |t| <= n then t else t[..n]
  }

  function DropLineEnd(t: string): string {
    if t != [] && t[|t| - 1] in {'\r', '\n'} then DropLineEnd(t[..|t| - 1]) else t
  }

  function DropClosing(t: string): string {
    if |t| > 1 && t[|t| - 1] in {' ', '\t', '#'} then DropClosing(t[..|t| - 1]) else t
  }

  /** `#` to `######`, blanks, then text; closing blanks and `#` are not part of the name. */
  function HeadingOf(text: string): (h: Option<Heading>)
    ensures h.Some? ==> 1 <= h.value.level <= 6 && |h.value.name| <= HEADING_CHARS
  {
    var level := Run(text, {'#'});
    var rest := text[level..];
    var blanks := Run(rest, {' ', '\t'});
    var name := rest[blanks..];
    if 1 <= level <= 6 && blanks > 0 && name != [] && !IsSpace(name[0])
    then Some(Heading(level, Take(Strip(DropClosing(name)), HEADING_CHARS)))
    else None
  }

  predicate IsFence(text: string) {
    var rest := DropSpaces(text);
    |text| - |rest| <= 3 && ("```" <= rest || "~~~" <= rest)
  }

  function TextOf(body: string, line: Line): string
    requires line.start <= line.end <= |body|
  {
    DropLineEnd(body[line.start..line.end])
  }

  // ---- where sections start -------------------------------------------------------------------

  /** The texts of a body's lines. */
  function Texts(body: string, lines: seq<Line>): (texts: seq<string>)
    requires forall k :: 0 <= k < |lines| ==> lines[k].start <= lines[k].end <= |body|
    ensures |texts| == |lines|
  {
    seq(|lines|, k requires 0 <= k < |lines| => TextOf(body, lines[k]))
  }

  /** Whether a code fence is open before line `k`. */
  predicate Fenced(texts: seq<string>, k: nat)
    requires k <= |texts|
  {
    k > 0 && (Fenced(texts, k - 1) != IsFence(texts[k - 1]))
  }

  /** Line `k` starts a section: a heading outside code fences, of level 2 or 3 unless the page is a source. */
  predicate Splits(texts: seq<string>, k: nat, source: bool)
    requires k < |texts|
  {
    && !IsFence(texts[k]) && !Fenced(texts, k)
    && var h := HeadingOf(texts[k]);
       h.Some? && (source || h.value.level in {2, 3})
  }

  /** The headings in force after line `k - 1`, by level. */
  function TrailBefore(texts: seq<string>, k: nat, source: bool): map<nat, string>
    requires k <= |texts|
  {
    if k == 0 then map[]
    else
      var before := TrailBefore(texts, k - 1, source);
      if Splits(texts, k - 1, source) then Push(before, HeadingOf(texts[k - 1]).value) else before
  }

  function Push(trail: map<nat, string>, h: Heading): map<nat, string> {
    (map d | d in trail && d < h.level :: trail[d])[h.level := h.name]
  }

  /** The names in force from `depth` down, outermost first. */
  function JoinFrom(trail: map<nat, string>, depth: nat): string
    decreases 7 - depth
  {
    if depth > 6 then ""
    else
      var rest := JoinFrom(trail, depth + 1);
      if depth !in trail then rest
      else if rest == "" && forall d :: depth < d <= 6 ==> d !in trail then trail[depth]
      else trail[depth] + " › " + rest
  }

  function TrailName(trail: map<nat, string>, source: bool): (name: string)
    ensures |name| <= TRAIL_CHARS
  {
    Take(JoinFrom(trail, if source then 1 else 2), TRAIL_CHARS)
  }

  /** The name of the section that starts at line `k`: its trail, or nothing for a lead without one. */
  function NameAt(texts: seq<string>, k: nat, source: bool): (name: string)
    requires k < |texts|
    ensures |name| <= TRAIL_CHARS
  {
    if Splits(texts, k, source) then TrailName(TrailBefore(texts, k + 1, source), source) else ""
  }

  /** Which lines split. */
  function Marks(texts: seq<string>, source: bool): (marks: seq<bool>)
    ensures |marks| == |texts|
  {
    seq(|texts|, k requires 0 <= k < |texts| => Splits(texts, k, source))
  }

  /** 0, then every later marked line before `k`. */
  function Cuts(marks: seq<bool>, k: nat): (cuts: seq<nat>)
    requires k <= |marks|
    ensures cuts != [] && cuts[0] == 0
  {
    if k <= 1 then [0]
    else if marks[k - 1] then Cuts(marks, k - 1) + [k - 1]
    else Cuts(marks, k - 1)
  }

  /** In order, and exactly the marked positions after the first. */
  ghost predicate InOrder(cuts: seq<nat>, marks: seq<bool>, k: nat)
    requires k <= |marks|
  {
    && (forall i, j :: 0 <= i < j < |cuts| ==> cuts[i] < cuts[j])
    && (forall i :: 0 < i < |cuts| ==> cuts[i] < k && marks[cuts[i]])
    && (forall j :: 0 < j < k && marks[j] ==> j in cuts)
  }

  lemma {:induction false} CutsAreMarks(marks: seq<bool>, k: nat)
    requires k <= |marks|
    ensures InOrder(Cuts(marks, k), marks, k)
  {
    if k > 1 {
      CutsAreMarks(marks, k - 1);
      var before := Cuts(marks, k - 1);
      assert forall i :: 0 <= i < |before| ==> before[i] < k - 1;
    }
  }

  /** Sections from their first lines and their names. */
  function Assemble(cuts: seq<nat>, names: seq<string>, total: nat): (sections: seq<Section>)
    requires |names| == |cuts|
    ensures |sections| == |cuts|
  {
    seq(|cuts|, i requires 0 <= i < |cuts| =>
      Section(cuts[i], if i + 1 < |cuts| then cuts[i + 1] else total, names[i]))
  }

  function NamesOf(texts: seq<string>, cuts: seq<nat>, source: bool): (names: seq<string>)
    requires forall i :: 0 <= i < |cuts| ==> cuts[i] < |texts|
    ensures |names| == |cuts|
    ensures forall i :: 0 <= i < |names| ==> |names[i]| <= TRAIL_CHARS
  {
    seq(|cuts|, i requires 0 <= i < |cuts| => NameAt(texts, cuts[i], source))
  }

  function SectionsOf(texts: seq<string>, source: bool): (sections: seq<Section>)
    requires texts != []
  {
    var cuts := Cuts(Marks(texts, source), |texts|);
    CutsAreMarks(Marks(texts, source), |texts|);
    Assemble(cuts, NamesOf(texts, cuts, source), |texts|)
  }

  // ---- sections tile the lines --------------------------------------------------------------

  ghost predicate Partition(sections: seq<Section>, first: nat, last: nat) {
    && sections != [] && sections[0].first == first && sections[|sections| - 1].last == last
    && (forall i {:trigger sections[i]} :: 0 <= i < |sections| ==>
         first <= sections[i].first < sections[i].last <= last && |sections[i].trail| <= TRAIL_CHARS)
    && (forall i, j :: 0 <= i < j < |sections| && j == i + 1 ==> sections[i].last == sections[j].first)
  }

  lemma {:induction false} PartitionOrdered(sections: seq<Section>, first: nat, last: nat, i: nat, j: nat)
    requires Partition(sections, first, last) && i < j < |sections|
    ensures sections[i].last <= sections[j].first
    decreases j - i
  {
    if i + 1 < j {
      PartitionOrdered(sections, first, last, i, j - 1);
      assert sections[j - 1].last == sections[j].first;
    }
  }

  lemma PartitionTail(sections: seq<Section>, first: nat, last: nat)
    requires Partition(sections, first, last) && |sections| > 1
    ensures Partition(sections[1..], sections[0].last, last)
  {
    forall i | 0 < i < |sections| ensures sections[0].last <= sections[i].first {
      PartitionOrdered(sections, first, last, 0, i);
    }
  }

  lemma AssembledTiles(cuts: seq<nat>, names: seq<string>, total: nat)
    requires |names| == |cuts| && cuts != [] && cuts[0] == 0 && cuts[|cuts| - 1] < total
    requires forall i, j :: 0 <= i < j < |cuts| ==> cuts[i] < cuts[j]
    requires forall i :: 0 <= i < |names| ==> |names[i]| <= TRAIL_CHARS
    ensures Partition(Assemble(cuts, names, total), 0, total)
  {
    var sections := Assemble(cuts, names, total);
    forall i {:trigger sections[i]} | 0 <= i < |sections|
      ensures 0 <= sections[i].first < sections[i].last <= total && |sections[i].trail| <= TRAIL_CHARS
    {
      assert |names[i]| <= TRAIL_CHARS;
    }
  }

  lemma AssembledPartition(marks: seq<bool>, names: seq<string>)
    requires marks != [] && |names| == |Cuts(marks, |marks|)|
    requires forall i :: 0 <= i < |names| ==> |names[i]| <= TRAIL_CHARS
    ensures var sections := Assemble(Cuts(marks, |marks|), names, |marks|);
            && Partition(sections, 0, |marks|)
            && (forall i :: 0 < i < |sections| ==> marks[sections[i].first])
            && (forall k :: 0 < k < |marks| && marks[k] ==> exists i :: 0 < i < |sections| && sections[i].first == k)
  {
    hide Cuts, Partition;
    CutsAreMarks(marks, |marks|);
    var cuts, sections := Cuts(marks, |marks|), Assemble(Cuts(marks, |marks|), names, |marks|);
    AssembledTiles(cuts, names, |marks|);
    forall k | 0 < k < |marks| && marks[k]
      ensures exists i :: 0 < i < |sections| && sections[i].first == k
    {
      var i :| 0 <= i < |cuts| && cuts[i] == k;
      assert sections[i].first == k;
    }
  }

  /** Sections partition the lines, and one starts at a line after the first exactly when that line splits. */
  lemma SectionsPartition(texts: seq<string>, source: bool)
    requires texts != []
    ensures var sections, marks := SectionsOf(texts, source), Marks(texts, source);
            && Partition(sections, 0, |texts|)
            && (forall i :: 0 < i < |sections| ==> marks[sections[i].first])
            && (forall k :: 0 < k < |texts| && marks[k] ==> exists i :: 0 < i < |sections| && sections[i].first == k)
  {
    var marks := Marks(texts, source);
    CutsAreMarks(marks, |texts|);
    AssembledPartition(marks, NamesOf(texts, Cuts(marks, |texts|), source));
  }

  // ---- merging --------------------------------------------------------------------------------

  predicate StartsWith(t: string, prefix: string) { prefix <= t }

  /** The trail of two merged sections; a heading already in the other's trail is not repeated. */
  function Joined(first: string, second: string): (r: string)
    requires |first| <= TRAIL_CHARS && |second| <= TRAIL_CHARS
    ensures |r| <= TRAIL_CHARS
  {
    if first == "" || StartsWith(second, first) then second
    else if second == "" || StartsWith(first, second) then first
    else Take(first + ", " + second, TRAIL_CHARS)
  }

  function Glue(left: Section, right: Section): Section
    requires |left.trail| <= TRAIL_CHARS && |right.trail| <= TRAIL_CHARS
  {
    Section(left.first, right.last, Joined(left.trail, right.trail))
  }

  predicate Short(lines: seq<Line>, s: Section)
    requires s.first <= s.last <= |lines|
  {
    WordsIn(lines, s.first, s.last) < MIN_SECTION_WORDS
  }

  /** Merged sections, and the short one still waiting for the next. */
  datatype Merging = Merging(merged: seq<Section>, pending: Option<Section>)

  ghost predicate WellTrailed(sections: seq<Section>) {
    forall i :: 0 <= i < |sections| ==> |sections[i].trail| <= TRAIL_CHARS
  }

  function Absorb(lines: seq<Line>, state: Merging, section: Section): (r: Merging)
    requires section.first <= section.last <= |lines| && |section.trail| <= TRAIL_CHARS
    requires state.pending.Some? ==>
             state.pending.value.first <= section.last && |state.pending.value.trail| <= TRAIL_CHARS
  {
    var next := if state.pending.Some? then Glue(state.pending.value, section) else section;
    if Short(lines, next) then Merging(state.merged, Some(next)) else Merging(state.merged + [next], None)
  }

  function Finish(state: Merging): seq<Section>
    requires WellTrailed(state.merged)
    requires state.pending.Some? ==> |state.pending.value.trail| <= TRAIL_CHARS
  {
    if state.pending.None? then state.merged
    else if state.merged == [] then [state.pending.value]
    else
      var n := |state.merged| - 1;
      state.merged[..n] + [Glue(state.merged[n], state.pending.value)]
  }

  /** After the sections that end at line `end`: the merged ones partition the lines up to the
      pending one, which covers the rest, is short, and is the only short one. */
  ghost predicate MergingOk(lines: seq<Line>, state: Merging, end: nat) {
    var boundary := if state.pending.Some? then state.pending.value.first else end;
    && end <= |lines|
    && (state.merged == [] ==> boundary == 0)
    && (state.merged != [] ==> Partition(state.merged, 0, boundary))
    && (forall i :: 0 <= i < |state.merged| ==>
         state.merged[i].last <= |lines| && state.merged[i].first <= state.merged[i].last
           && !Short(lines, state.merged[i]))
    && (state.pending.Some? ==>
         var p := state.pending.value;
         p.first < p.last == end && |p.trail| <= TRAIL_CHARS && Short(lines, p))
  }

  lemma AbsorbKeeps(lines: seq<Line>, state: Merging, section: Section)
    requires MergingOk(lines, state, section.first)
    requires section.first < section.last <= |lines| && |section.trail| <= TRAIL_CHARS
    requires state.pending.None? && state.merged == [] ==> section.first == 0
    ensures MergingOk(lines, Absorb(lines, state, section), section.last)
  {
  }

  function MergeSections(lines: seq<Line>, sections: seq<Section>, k: nat): (state: Merging)
    requires k <= |sections| && (sections == [] || Partition(sections, 0, |lines|))
    ensures k > 0 ==> MergingOk(lines, state, sections[k - 1].last)
    ensures k == 0 ==> state == Merging([], None)
  {
    if k == 0 then Merging([], None)
    else
      var before := MergeSections(lines, sections, k - 1);
      AbsorbKeeps(lines, before, sections[k - 1]);
      Absorb(lines, before, sections[k - 1])
  }

  function MergedOf(lines: seq<Line>, sections: seq<Section>): seq<Section>
    requires Partition(sections, 0, |lines|)
  {
    Finish(MergeSections(lines, sections, |sections|))
  }

  /** Merged sections still partition the lines, and none is left short unless it is the only one. */
  lemma MergedPartition(lines: seq<Line>, sections: seq<Section>)
    requires Partition(sections, 0, |lines|)
    ensures Partition(MergedOf(lines, sections), 0, |lines|)
    ensures forall s :: s in MergedOf(lines, sections) && Short(lines, s) ==> MergedOf(lines, sections) == [s]
  {
    var state := MergeSections(lines, sections, |sections|);
    var merged := MergedOf(lines, sections);
    if state.pending.Some? && state.merged != [] {
      var n := |state.merged| - 1;
      SumsAreMonotone(lines, state.merged[n].last, |lines|);
      assert forall i :: 0 <= i < n ==> merged[i] == state.merged[i];
      assert merged[n] == Glue(state.merged[n], state.pending.value);
    }
  }

  // ---- the loops --------------------------------------------------------------------------------

  /** One line of the heading scan: whether it splits, and the fence and trail after it. */
  method ScanLine(text: string, ghost texts: seq<string>, k: nat, source: bool, fenced: bool, trail: map<nat, string>)
    returns (splits: bool, fencedAfter: bool, trailAfter: map<nat, string>, name: string)
    requires k < |texts| && texts[k] == text
    requires fenced == Fenced(texts, k) && trail == TrailBefore(texts, k, source)
    ensures splits == Marks(texts, source)[k] && name == NameAt(texts, k, source)
    ensures fencedAfter == Fenced(texts, k + 1) && trailAfter == TrailBefore(texts, k + 1, source)
  {
    splits, fencedAfter, trailAfter, name := false, fenced, trail, "";
    if IsFence(text) {
      fencedAfter := !fenced;
    } else {
      var heading := if fenced then None else HeadingOf(text);
      if heading.Some? && (source || heading.value.level in {2, 3}) {
        splits := true;
        trailAfter := Push(trail, heading.value);
        name := TrailName(trailAfter, source);
      }
    }
  }

  /** The names recorded for the sections whose first line has been read. */
  ghost predicate NamesFor(texts: seq<string>, cuts: seq<nat>, names: seq<string>, index: nat, source: bool) {
    |names| == |cuts| && forall i :: 0 <= i < |cuts| ==>
      cuts[i] < |texts| && names[i] == if cuts[i] < index then NameAt(texts, cuts[i], source) else ""
  }

  /** Recording one scanned line. */
  function Record(cuts: seq<nat>, names: seq<string>, index: nat, splits: bool, name: string):
      (r: (seq<nat>, seq<string>))
    requires |names| == |cuts| && (index == 0 ==> cuts == [0])
    ensures |r.0| == |r.1|
  {
    if !splits then (cuts, names)
    else if index == 0 then (cuts, [name])
    else (cuts + [index], names + [name])
  }

  lemma RecordKeeps(texts: seq<string>, marks: seq<bool>, cuts: seq<nat>, names: seq<string>, index: nat, source: bool)
    requires index < |texts| && marks == Marks(texts, source)
    requires cuts == Cuts(marks, index) && NamesFor(texts, cuts, names, index, source)
    ensures var (c, n) := Record(cuts, names, index, marks[index], NameAt(texts, index, source));
            c == Cuts(marks, index + 1) && NamesFor(texts, c, n, index + 1, source)
  {
    CutsAreMarks(marks, index);
  }

  lemma NamesComplete(texts: seq<string>, cuts: seq<nat>, names: seq<string>, source: bool)
    requires NamesFor(texts, cuts, names, |texts|, source)
    ensures names == NamesOf(texts, cuts, source)
  {
  }

  /** What the heading scan has after `index` lines. */
  ghost predicate Scanned(texts: seq<string>, index: nat, source: bool,
                          cuts: seq<nat>, names: seq<string>, fenced: bool, trail: map<nat, string>)
    requires index <= |texts|
  {
    && cuts == Cuts(Marks(texts, source), index) && NamesFor(texts, cuts, names, index, source)
    && trail == TrailBefore(texts, index, source) && fenced == Fenced(texts, index)
  }

  method ScanNext(texts: seq<string>, index: nat, source: bool,
                  cuts: seq<nat>, names: seq<string>, fenced: bool, trail: map<nat, string>)
    returns (cuts': seq<nat>, names': seq<string>, fenced': bool, trail': map<nat, string>)
    requires index < |texts| && Scanned(texts, index, source, cuts, names, fenced, trail)
    ensures Scanned(texts, index + 1, source, cuts', names', fenced', trail')
  {
    RecordKeeps(texts, Marks(texts, source), cuts, names, index, source);
    var splits, fencedAfter, trailAfter, name := ScanLine(texts[index], texts, index, source, fenced, trail);
    var recorded := Record(cuts, names, index, splits, name);
    cuts', names', fenced', trail' := recorded.0, recorded.1, fencedAfter, trailAfter;
  }

  lemma ScanStarts(texts: seq<string>, source: bool)
    requires texts != []
    ensures Scanned(texts, 0, source, [0], [""], false, map[])
  {
  }

  lemma ScanEnds(texts: seq<string>, source: bool, cuts: seq<nat>, names: seq<string>, fenced: bool,
                 trail: map<nat, string>)
    requires texts != [] && Scanned(texts, |texts|, source, cuts, names, fenced, trail)
    ensures |names| == |cuts|
    ensures Assemble(cuts, names, |texts|) == SectionsOf(texts, source)
  {
    NamesComplete(texts, cuts, names, source);
  }

  method FindSections(texts: seq<string>, source: bool) returns (sections: seq<Section>)
    requires texts != []
    ensures sections == SectionsOf(texts, source)
  {
    hide Scanned, SectionsOf;
    var cuts, names := [0], [""];
    var fenced, trail, index := false, map[], 0;
    ScanStarts(texts, source);
    while index < |texts|
      invariant index <= |texts| && Scanned(texts, index, source, cuts, names, fenced, trail)
    {
      cuts, names, fenced, trail := ScanNext(texts, index, source, cuts, names, fenced, trail);
      index := index + 1;
    }
    ScanEnds(texts, source, cuts, names, fenced, trail);
    sections := Assemble(cuts, names, |texts|);
  }

  method Merge(lines: seq<Line>, sections: seq<Section>) returns (merged: seq<Section>)
    requires Partition(sections, 0, |lines|)
    ensures merged == MergedOf(lines, sections)
  {
    hide Short;
    merged := [];
    var pending: Option<Section> := None;
    var k := 0;
    while k < |sections|
      invariant k <= |sections|
      invariant Merging(merged, pending) == MergeSections(lines, sections, k)
    {
      var section := sections[k];
      if pending.Some? {
        section := Glue(pending.value, section);
        pending := None;
      }
      if Short(lines, section) {
        pending := Some(section);
      } else {
        merged := merged + [section];
      }
      k := k + 1;
    }
    if pending.Some? {
      if merged != [] {
        var last := merged[|merged| - 1];
        merged := merged[..|merged| - 1] + [Glue(last, pending.value)];
      } else {
        merged := [pending.value];
      }
    }
  }
}
