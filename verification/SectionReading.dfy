/** What headings, fences and trails are read off a body's lines. */
module SectionReading {
  import opened Options
  import opened Text
  import opened LineCutter
  import opened Sections

  // ---- one heading --------------------------------------------------------------------------------------

  predicate AllIn(t: string, chars: set<char>) { forall k :: 0 <= k < |t| ==> t[k] in chars }

  const BLANKS := {' ', '\t'}
  const CLOSING := {' ', '\t', '#'}

  /** A name as a heading line holds it: from a character that is no white space to its last that closes nothing. */
  predicate NameText(name: string) {
    name != "" && !IsSpace(name[0]) && (|name| == 1 || name[|name| - 1] !in CLOSING)
  }

  /** How a heading line is written: one to six marks, blanks, the name, and what closes it. */
  predicate HeadingText(text: string, marks: string, gap: string, name: string, closing: string) {
    && text == marks + gap + name + closing
    && 1 <= |marks| <= 6 && AllIn(marks, {'#'}) && gap != "" && AllIn(gap, BLANKS)
    && NameText(name) && AllIn(closing, CLOSING)
  }

  lemma {:induction false} RunIs(a: string, b: string, chars: set<char>)
    requires AllIn(a, chars) && (b == "" || b[0] !in chars)
    ensures Run(a + b, chars) == |a|
  {
    if a == "" {
      assert a + b == b;
    } else {
      RunIs(a[1..], b, chars);
      assert (a + b)[1..] == a[1..] + b;
    }
  }

  lemma {:induction false} RunHolds(t: string, chars: set<char>)
    ensures var n := Run(t, chars); AllIn(t[..n], chars) && (n < |t| ==> t[n] !in chars)
  {
    if t != [] && t[0] in chars {
      RunHolds(t[1..], chars);
      var n := Run(t[1..], chars);
      assert forall k :: 0 < k < n + 1 ==> t[k] == t[1..][..n][k - 1];
    }
  }

  lemma {:induction false} DropClosingIs(name: string, closing: string)
    requires NameText(name) && AllIn(closing, CLOSING)
    ensures DropClosing(name + closing) == name
  {
    if closing == "" {
      assert name + closing == name;
    } else {
      var n := |closing| - 1;
      DropClosingIs(name, closing[..n]);
      assert (name + closing)[..|name| + n] == name + closing[..n];
    }
  }

  lemma {:induction false} DropClosingHolds(t: string) returns (n: nat)
    requires t != "" && !IsSpace(t[0])
    ensures n <= |t| && DropClosing(t) == t[..n] && NameText(t[..n]) && AllIn(t[n..], CLOSING)
  {
    if |t| > 1 && t[|t| - 1] in CLOSING {
      n := DropClosingHolds(t[..|t| - 1]);
      assert t[..|t| - 1][..n] == t[..n];
      forall k | 0 <= k < |t[n..]| ensures t[n..][k] in CLOSING {
        if n + k < |t| - 1 { assert t[n..][k] == t[..|t| - 1][n..][k]; }
      }
    } else {
      n := |t|;
      assert t[..n] == t;
    }
  }

  /** However a heading line is written, its level and its name are read off it. */
  lemma HeadingReads(text: string, marks: string, gap: string, name: string, closing: string)
    requires HeadingText(text, marks, gap, name, closing)
    ensures HeadingOf(text) == Some(Heading(|marks|, Take(Strip(name), HEADING_CHARS)))
  {
    hide Run, DropClosing, Strip;
    var rest := gap + (name + closing);
    JoinedText(marks, gap, name, closing);
    RunIs(marks, rest, {'#'});
    RunIs(gap, name + closing, BLANKS);
    DropClosingIs(name, closing);
  }

  lemma JoinedText(marks: string, gap: string, name: string, closing: string)
    requires gap != "" && name != ""
    ensures var rest := gap + (name + closing);
            && marks + gap + name + closing == marks + rest && (marks + rest)[|marks|..] == rest
            && rest[|gap|..] == name + closing && rest[0] == gap[0] && (name + closing)[0] == name[0]
  {
  }

  /** And nothing else is a heading line. */
  lemma HeadingIsWritten(text: string) returns (marks: string, gap: string, name: string, closing: string)
    requires HeadingOf(text).Some?
    ensures HeadingText(text, marks, gap, name, closing)
  {
    hide DropClosing, Run, Strip;
    var level := Run(text, {'#'});
    var rest := text[level..];
    var blanks := Run(rest, BLANKS);
    RunHolds(text, {'#'});
    RunHolds(rest, BLANKS);
    var n := DropClosingHolds(rest[blanks..]);
    marks, gap, name, closing := text[..level], rest[..blanks], rest[blanks..][..n], rest[blanks..][n..];
    FourParts(text, level, blanks, n);
  }

  lemma FourParts(text: string, i: nat, j: nat, k: nat)
    requires i <= |text| && j <= |text[i..]| && k <= |text[i..][j..]|
    ensures text == text[..i] + text[i..][..j] + text[i..][j..][..k] + text[i..][j..][k..]
  {
    var rest := text[i..];
    assert rest == rest[..j] + rest[j..] && rest[j..] == rest[j..][..k] + rest[j..][k..];
  }

  // ---- one line -------------------------------------------------------------------------------------------

  const LINE_ENDS := {'\r', '\n'}

  /** The text of a line is all of it but the line feeds and carriage returns at its end. */
  lemma LineText(body: string, lines: seq<Line>, k: nat)
    requires (forall i :: 0 <= i < |lines| ==> lines[i].start <= lines[i].end <= |body|) && k < |lines|
    ensures var text, whole := Texts(body, lines)[k], body[lines[k].start..lines[k].end];
            text <= whole && AllIn(whole[|text|..], LINE_ENDS) && (text == "" || text[|text| - 1] !in LINE_ENDS)
  {
    DropsLineEnd(body[lines[k].start..lines[k].end]);
  }

  lemma {:induction false} DropsLineEnd(t: string)
    ensures var r := DropLineEnd(t);
            r <= t && AllIn(t[|r|..], LINE_ENDS) && (r == "" || r[|r| - 1] !in LINE_ENDS)
  {
    if t != [] && t[|t| - 1] in {'\r', '\n'} {
      var front := t[..|t| - 1];
      DropsLineEnd(front);
      var r := DropLineEnd(front);
      assert t[|r|..] == front[|r|..] + [t[|t| - 1]];
    }
  }

  // ---- fences ---------------------------------------------------------------------------------------------

  lemma {:induction false} DropSpacesDrops(t: string) returns (n: nat)
    ensures n <= |t| && DropSpaces(t) == t[n..] && Blank(t[..n]) && (n < |t| ==> !IsSpace(t[n]))
  {
    n := 0;
    if t != [] && IsSpace(t[0]) {
      n := DropSpacesDrops(t[1..]);
      n := n + 1;
      assert forall k :: 0 < k < n ==> t[k] == t[1..][..n - 1][k - 1];
    }
  }

  lemma BlankOnce(t: string, m: nat, n: nat)
    requires m < |t| && !IsSpace(t[m]) && n <= |t| && Blank(t[..m]) && Blank(t[..n]) && (n < |t| ==> !IsSpace(t[n]))
    ensures m == n
  {
    assert forall k :: 0 <= k < m ==> t[..m][k] == t[k];
    assert forall k :: 0 <= k < n ==> t[..n][k] == t[k];
  }

  /** A fence line: at most three white space characters and three marks. */
  ghost predicate FenceText(text: string) {
    exists n: nat :: n <= 3 && n <= |text| && Blank(text[..n]) && ("```" <= text[n..] || "~~~" <= text[n..])
  }

  lemma FenceIsWritten(text: string)
    ensures IsFence(text) <==> FenceText(text)
  {
    var n := DropSpacesDrops(text);
    if FenceText(text) {
      var m: nat :| m <= 3 && m <= |text| && Blank(text[..m]) && ("```" <= text[m..] || "~~~" <= text[m..]);
      assert text[m] == text[m..][0] && text[m] in {'`', '~'};
      BlankOnce(text, m, n);
    }
  }

  function FencesBefore(texts: seq<string>, k: nat): nat
    requires k <= |texts|
  {
    if k == 0 then 0 else FencesBefore(texts, k - 1) + if IsFence(texts[k - 1]) then 1 else 0
  }

  lemma {:induction false} FencedIsOdd(texts: seq<string>, k: nat)
    requires k <= |texts|
    ensures Fenced(texts, k) <==> FencesBefore(texts, k) % 2 == 1
  {
    if k > 0 { FencedIsOdd(texts, k - 1); }
  }

  /** Exactly the lines that start a section: the heading lines outside code fences, of level two or three unless
      the page is a source. */
  lemma SplitsExactly(texts: seq<string>, k: nat, source: bool)
    requires k < |texts|
    ensures Splits(texts, k, source) <==>
            && !FenceText(texts[k]) && FencesBefore(texts, k) % 2 == 0
            && exists marks, gap, name, closing :: HeadingText(texts[k], marks, gap, name, closing)
                 && (source || |marks| in {2, 3})
  {
    FenceIsWritten(texts[k]);
    FencedIsOdd(texts, k);
    if HeadingOf(texts[k]).Some? {
      var marks, gap, name, closing := HeadingIsWritten(texts[k]);
      HeadingReads(texts[k], marks, gap, name, closing);
    }
    forall marks, gap, name, closing | HeadingText(texts[k], marks, gap, name, closing)
      ensures HeadingOf(texts[k]) == Some(Heading(|marks|, Take(Strip(name), HEADING_CHARS)))
    {
      HeadingReads(texts[k], marks, gap, name, closing);
    }
  }

  // ---- trails -----------------------------------------------------------------------------------------------

  /** The heading of a line, and one of no level for any other. */
  function HeadingAt(texts: seq<string>, k: nat): Heading {
    if k < |texts| && HeadingOf(texts[k]).Some? then HeadingOf(texts[k]).value else Heading(0, "")
  }

  function LevelAt(texts: seq<string>, k: nat): nat { HeadingAt(texts, k).level }

  /** The heading at line `j` still holds before line `k`: none since is of its level or above. */
  ghost predicate InForce(texts: seq<string>, k: nat, source: bool, j: nat)
    requires k <= |texts|
  {
    && j < k && Splits(texts, j, source)
    && forall i :: j < i < k && Splits(texts, i, source) ==> LevelAt(texts, i) > LevelAt(texts, j)
  }

  lemma InForceStep(texts: seq<string>, k: nat, source: bool, j: nat)
    requires k < |texts|
    ensures InForce(texts, k + 1, source, j) <==>
            if Splits(texts, k, source)
            then j == k || (InForce(texts, k, source, j) && LevelAt(texts, j) < LevelAt(texts, k))
            else InForce(texts, k, source, j)
  {
    hide Splits, LevelAt;
  }

  /** The heading of a level in force before line `k`, if there is one. */
  ghost predicate TrailAt(texts: seq<string>, k: nat, source: bool, d: nat)
    requires k <= |texts|
  {
    var trail := TrailBefore(texts, k, source);
    && (d in trail <==> exists j :: InForce(texts, k, source, j) && LevelAt(texts, j) == d)
    && (forall j :: InForce(texts, k, source, j) && LevelAt(texts, j) == d ==>
          d in trail && trail[d] == HeadingAt(texts, j).name)
  }

  lemma TrailStep(texts: seq<string>, k: nat, source: bool, d: nat)
    requires k < |texts|
    ensures var before, after := TrailBefore(texts, k, source), TrailBefore(texts, k + 1, source);
            if !Splits(texts, k, source) then after == before
            else if LevelAt(texts, k) == d then d in after && after[d] == HeadingAt(texts, k).name
            else if LevelAt(texts, k) < d then d !in after
            else (d in after <==> d in before) && (d in after ==> after[d] == before[d])
  {
    hide HeadingOf, IsFence, Fenced;
    assert TrailBefore(texts, k + 1, source) ==
           if Splits(texts, k, source) then Push(TrailBefore(texts, k, source), HeadingOf(texts[k]).value)
           else TrailBefore(texts, k, source);
  }

  lemma {:induction false} TrailIs(texts: seq<string>, k: nat, source: bool, d: nat)
    requires k <= |texts|
    ensures TrailAt(texts, k, source, d)
  {
    hide InForce, Splits, TrailBefore, HeadingAt, LevelAt;
    if k == 0 {
      NoTrail(texts, source, d);
    } else {
      TrailIs(texts, k - 1, source, d);
      TrailStep(texts, k - 1, source, d);
      forall j ensures InForce(texts, k, source, j) <==>
        if Splits(texts, k - 1, source) then j == k - 1
          || (InForce(texts, k - 1, source, j) && LevelAt(texts, j) < LevelAt(texts, k - 1))
        else InForce(texts, k - 1, source, j)
      {
        InForceStep(texts, k - 1, source, j);
      }
    }
  }

  lemma NoTrail(texts: seq<string>, source: bool, d: nat)
    ensures TrailAt(texts, 0, source, d)
  {
  }

  /** Names with the sign between them. */
  function Separated(names: seq<string>): string {
    if names == [] then "" else if |names| == 1 then names[0] else names[0] + " › " + Separated(names[1..])
  }

  /** The headings in force of level `depth` and below, outermost first. */
  ghost predicate Outline(texts: seq<string>, k: nat, source: bool, depth: nat, at: seq<nat>)
    requires k <= |texts|
  {
    && (forall j :: j in at <==> InForce(texts, k, source, j) && LevelAt(texts, j) >= depth)
    && (forall x, y :: 0 <= x < y < |at| ==> LevelAt(texts, at[x]) < LevelAt(texts, at[y]))
  }

  function NamesAt(texts: seq<string>, at: seq<nat>): (names: seq<string>)
    ensures |names| == |at|
  {
    if at == [] then [] else [HeadingAt(texts, at[0]).name] + NamesAt(texts, at[1..])
  }

  lemma SameLevelOnce(texts: seq<string>, k: nat, source: bool, i: nat, j: nat)
    requires k <= |texts| && InForce(texts, k, source, i) && InForce(texts, k, source, j)
    requires LevelAt(texts, i) == LevelAt(texts, j)
    ensures i == j
  {
  }

  lemma {:induction false} JoinsOutline(texts: seq<string>, k: nat, source: bool, depth: nat) returns (at: seq<nat>)
    requires k <= |texts|
    ensures Outline(texts, k, source, depth, at)
    ensures JoinFrom(TrailBefore(texts, k, source), depth) == Separated(NamesAt(texts, at))
    decreases 7 - depth
  {
    hide InForce, Splits, LevelAt, TrailBefore;
    LevelsAre(texts, k, source);
    var trail := TrailBefore(texts, k, source);
    if depth > 6 {
      at := [];
    } else {
      var rest := JoinsOutline(texts, k, source, depth + 1);
      TrailIs(texts, k, source, depth);
      if depth !in trail {
        at := rest;
        assert forall j :: InForce(texts, k, source, j) ==> LevelAt(texts, j) != depth;
      } else {
        var j :| InForce(texts, k, source, j) && LevelAt(texts, j) == depth;
        at := [j] + rest;
        OneOutline(texts, k, source, depth, j, rest);
        NoneDeeper(texts, k, source, depth + 1, rest);
        assert at[1..] == rest;
      }
    }
  }

  lemma OneOutline(texts: seq<string>, k: nat, source: bool, depth: nat, j: nat, rest: seq<nat>)
    requires k <= |texts| && Outline(texts, k, source, depth + 1, rest)
    requires InForce(texts, k, source, j) && LevelAt(texts, j) == depth
    ensures Outline(texts, k, source, depth, [j] + rest)
  {
    hide Splits, LevelAt;
    var at := [j] + rest;
    forall i ensures i in at <==> InForce(texts, k, source, i) && LevelAt(texts, i) >= depth {
      if InForce(texts, k, source, i) && LevelAt(texts, i) == depth { SameLevelOnce(texts, k, source, i, j); }
    }
    forall x, y | 0 <= x < y < |at| ensures LevelAt(texts, at[x]) < LevelAt(texts, at[y]) {
      assert at[y] == rest[y - 1] && rest[y - 1] in rest;
      if x > 0 { assert at[x] == rest[x - 1]; }
    }
  }

  lemma LevelsAre(texts: seq<string>, k: nat, source: bool)
    requires k <= |texts|
    ensures forall j :: InForce(texts, k, source, j) ==> 1 <= LevelAt(texts, j) <= 6
  {
  }

  lemma NoneDeeper(texts: seq<string>, k: nat, source: bool, depth: nat, at: seq<nat>)
    requires k <= |texts| && Outline(texts, k, source, depth, at)
    ensures at == [] <==> forall d :: depth <= d <= 6 ==> d !in TrailBefore(texts, k, source)
  {
    hide InForce, Splits, LevelAt, TrailBefore;
    LevelsAre(texts, k, source);
    forall d ensures d in TrailBefore(texts, k, source) <==>
      exists j :: InForce(texts, k, source, j) && LevelAt(texts, j) == d { TrailIs(texts, k, source, d); }
    if at != [] {
      assert at[0] in at;
      assert LevelAt(texts, at[0]) in TrailBefore(texts, k, source);
    } else {
      assert forall j :: InForce(texts, k, source, j) ==> j in at || LevelAt(texts, j) < depth;
    }
  }

  /** A section's trail: the names of the headings in force at its first line, outermost first; nothing for a lead
      without a heading. */
  ghost predicate TrailReads(texts: seq<string>, k: nat, source: bool, trail: string) {
    if k >= |texts| || !Splits(texts, k, source) then trail == ""
    else exists at :: Outline(texts, k + 1, source, 1, at)
           && trail == Take(Separated(NamesAt(texts, at)), TRAIL_CHARS)
  }

  lemma NameReads(texts: seq<string>, k: nat, source: bool)
    requires k < |texts|
    ensures TrailReads(texts, k, source, NameAt(texts, k, source))
  {
    if Splits(texts, k, source) {
      var depth := if source then 1 else 2;
      var at := JoinsOutline(texts, k + 1, source, depth);
      assert Outline(texts, k + 1, source, 1, at);
    }
  }

  /** The sections of a body: one starts at its first line and at each later line that splits, and each has the
      trail of the place where it starts. */
  ghost predicate SectionsAre(texts: seq<string>, source: bool, sections: seq<Section>) {
    && Partition(sections, 0, |texts|)
    && (forall s :: s in sections ==> TrailReads(texts, s.first, source, s.trail))
    && (forall k :: 0 < k < |texts| ==>
         (Splits(texts, k, source) <==> exists i :: 0 < i < |sections| && sections[i].first == k))
  }

  lemma SectionsRead(texts: seq<string>, source: bool)
    requires texts != []
    ensures SectionsAre(texts, source, SectionsOf(texts, source))
  {
    hide TrailReads, Splits, Cuts, Partition;
    var sections := SectionsOf(texts, source);
    SectionsPartition(texts, source);
    CutsAreMarks(Marks(texts, source), |texts|);
    forall s | s in sections ensures TrailReads(texts, s.first, source, s.trail) { NameReads(texts, s.first, source); }
    forall k | 0 < k < |texts|
      ensures Splits(texts, k, source) <==> exists i :: 0 < i < |sections| && sections[i].first == k
    {
      assert Marks(texts, source)[k] == Splits(texts, k, source);
    }
  }
}
