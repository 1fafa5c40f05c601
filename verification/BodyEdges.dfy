/** Printing strips the white space at the edges of a text: what that makes of its first and last units. */
module BodyEdges {
  import opened Options
  import opened Text
  import opened PageBodies
  import opened BodyRender
  import opened BodyParse
  import opened BodyRoundTrip
  import opened BodyNormal

  // ---- lines without white space at an edge -------------------------------------------------------

  lemma {:induction false} DropSpacesKeeps(t: string) returns (k: nat)
    ensures k <= |t| && DropSpaces(t) == t[k..] && (k < |t| ==> !IsSpace(t[k]))
    ensures forall i :: 0 <= i < k ==> IsSpace(t[i])
  {
    k := 0;
    if t != [] && IsSpace(t[0]) {
      var n := DropSpacesKeeps(t[1..]);
      k := n + 1;
      assert t[1..][n..] == t[k..];
      assert forall i :: 0 < i < k ==> t[i] == t[1..][i - 1];
    }
  }

  lemma {:induction false} DropSpacesIs(t: string, k: nat)
    requires k <= |t| && (k < |t| ==> !IsSpace(t[k])) && forall i :: 0 <= i < k ==> IsSpace(t[i])
    ensures DropSpaces(t) == t[k..]
  {
    if k > 0 {
      DropSpacesIs(t[1..], k - 1);
      assert t[1..][k - 1..] == t[k..];
    }
  }

  lemma {:induction false} TrimEndIs(t: string, n: nat)
    requires n <= |t| && (n > 0 ==> !IsSpace(t[n - 1])) && forall i :: n <= i < |t| ==> IsSpace(t[i])
    ensures TrimEnd(t) == t[..n]
  {
    if n < |t| {
      TrimEndIs(t[..|t| - 1], n);
      assert t[..|t| - 1][..n] == t[..n];
    }
  }

  /** The two edges are stripped in either order. */
  lemma EdgesCommute(t: string)
    ensures DropSpaces(TrimEnd(t)) == TrimEnd(DropSpaces(t))
    ensures DropSpaces(DropSpaces(t)) == DropSpaces(t) && TrimEnd(TrimEnd(t)) == TrimEnd(t)
  {
    var k := DropSpacesKeeps(t);
    var n := TrimEndKeeps(t);
    TrimIsTrimmed(t);
    DropSpacesIs(t[k..], 0);
    if k < n {
      assert t[..n][k..] == t[k..][..n - k];
      DropSpacesIs(t[..n], k);
      TrimEndIs(t[k..], n - k);
    }
  }

  lemma FenceEdges(line: Line)
    ensures IsFence(TrimEnd(line)) == IsFence(line) == IsFence(DropSpaces(line))
  {
    hide DropSpaces, TrimEnd;
    EdgesCommute(line);
    TrimIsTrimmed(DropSpaces(line));
    assert Strip(TrimEnd(line)) == Strip(line) == Strip(DropSpaces(line));
  }

  lemma BlankEdges(line: Line)
    requires !Blank(line)
    ensures !Blank(TrimEnd(line)) && !Blank(DropSpaces(line)) && TrimEnd(line) != [] && DropSpaces(line) != []
    ensures !IsSpace(DropSpaces(line)[0])
  {
    var k := DropSpacesKeeps(line);
    var n := TrimEndKeeps(line);
    var i :| 0 <= i < |line| && !IsSpace(line[i]);
    assert i < n && k <= i;
    assert line[..n][i] == line[i] && line[k..][i - k] == line[i];
  }

  /** What a prefix of a line looks like, the line does. */
  lemma PrefixLooks(line: Line, n: nat)
    requires n <= |line|
    ensures IsHeading(line[..n]) ==> IsHeading(line)
    ensures IsItem(line[..n]) ==> IsItem(line)
    ensures CALLOUT_START <= line[..n] ==> CALLOUT_START <= line
    ensures CALLOUT_END <= line[..n] ==> CALLOUT_END <= line
  {
    var p := line[..n];
    RunOfPrefix(line, n, {'#'});
    RunOfPrefix(line, n, DIGITS);
    if IsHeading(p) {
      var h := Run(p, {'#'});
      var i :| 0 <= i < |p[h..]| && !IsSpace(p[h..][i]);
      assert line[h..][i] == p[h..][i];
    }
  }

  /** White space at the end of a line does not tell continuations and fences from other lines. */
  lemma TrimEndClass(line: Line)
    requires ClassOf(line) in {Fences, Continues}
    ensures ClassOf(TrimEnd(line)) == ClassOf(line)
  {
    var n := TrimEndKeeps(line);
    PrefixLooks(line, n);
    FenceEdges(line);
    if Blank(line) { BlankDrops(line); }
    BlankEdges(line);
  }

  lemma TrimEndItem(line: Line)
    requires ClassOf(line) == StartsItem
    ensures ClassOf(TrimEnd(line)) in {StartsItem, Continues}
    ensures ClassOf(TrimEnd(line)) == StartsItem <==> IsItem(TrimEnd(line))
  {
    var n := TrimEndKeeps(line);
    PrefixLooks(line, n);
    FenceEdges(line);
    BlankEdges(line);
  }

  lemma {:induction false} PrefixIsPrefix(a: string, line: Line)
    requires a <= line && a != [] && !IsSpace(a[|a| - 1])
    ensures a <= TrimEnd(line)
  {
    var n := TrimEndKeeps(line);
    assert line[|a| - 1] == a[|a| - 1];
  }

  lemma MarkEdges(line: Line)
    ensures CALLOUT_START <= TrimEnd(line) <==> CALLOUT_START <= line
    ensures CALLOUT_END <= TrimEnd(line) <==> CALLOUT_END <= line
  {
    var n := TrimEndKeeps(line);
    PrefixLooks(line, n);
    if CALLOUT_START <= line { PrefixIsPrefix(CALLOUT_START, line); }
    if CALLOUT_END <= line { PrefixIsPrefix(CALLOUT_END, line); }
  }

  // ---- the last unit --------------------------------------------------------------------------------

  /** Lines up to the last one with text, that one without the white space at its end. */
  lemma {:induction false} StripTailKeeps(lines: seq<Line>) returns (m: nat)
    requires exists k :: 0 <= k < |lines| && !Blank(lines[k])
    ensures m < |lines| && !Blank(lines[m]) && StripTail(lines) == lines[..m] + [TrimEnd(lines[m])]
    ensures forall k :: m < k < |lines| ==> Blank(lines[k])
  {
    m := |lines| - 1;
    if Blank(lines[m]) {
      var k :| 0 <= k < |lines| && !Blank(lines[k]);
      assert lines[..m][k] == lines[k];
      var n := m;
      m := StripTailKeeps(lines[..n]);
      assert lines[..n][..m] == lines[..m];
    }
  }

  lemma {:induction false} StripTailAppends(a: seq<Line>, b: seq<Line>)
    requires exists k :: 0 <= k < |b| && !Blank(b[k])
    ensures StripTail(a + b) == a + StripTail(b)
  {
    var n := |b| - 1;
    assert (a + b)[|a| + n] == b[n];
    if Blank(b[n]) {
      var k :| 0 <= k < |b| && !Blank(b[k]);
      assert b[..n][k] == b[k];
      StripTailAppends(a, b[..n]);
      assert (a + b)[..|a| + n] == a + b[..n];
    } else {
      assert (a + b)[..|a| + n] + [TrimEnd(b[n])] == a + (b[..n] + [TrimEnd(b[n])]);
    }
  }

  /** The last unit of a text, stripped: an item whose mark had nothing after it is an item no more. */
  function TailUnit(u: Unit): Unit {
    var lines := StripTail(u.lines);
    Unit(if u.kind == Item && lines != [] && !IsItem(lines[0]) then Paragraph else u.kind, lines, u.layer)
  }

  lemma {:induction false} RunsPrefix(kind: Kind, lines: seq<Line>, m: nat)
    requires Runs(kind, lines) && m < |lines|
    ensures Runs(kind, lines[..m + 1])
    ensures m > 0 ==> Runs(kind, lines[..m]) && (InFence(lines[..m]) || MayContinue(kind, lines[m]))
    ensures m == 0 ==> MayStart(kind, lines[0])
  {
    if m == |lines| - 1 {
      assert lines[..m + 1] == lines;
    } else {
      var n := |lines| - 1;
      RunsPrefix(kind, lines[..n], m);
      assert lines[..n][..m + 1] == lines[..m + 1] && lines[..n][..m] == lines[..m];
    }
  }

  lemma TailRuns(u: Unit, m: nat)
    requires u.kind != Callout && Runs(u.kind, u.lines) && m < |u.lines| && !Blank(u.lines[m])
    requires StripTail(u.lines) == u.lines[..m] + [TrimEnd(u.lines[m])]
    ensures Runs(TailUnit(u).kind, StripTail(u.lines))
    ensures TailUnit(u).kind != u.kind ==>
            u.kind == Item && m == 0 && |StripTail(u.lines)| == 1 && ClassOf(StripTail(u.lines)[0]) == Continues
  {
    hide ClassOf, IsItem;
    RunsPrefix(u.kind, u.lines, m);
    var lines, last := StripTail(u.lines), u.lines[m];
    if m == 0 {
      assert lines == [TrimEnd(last)];
      if u.kind == Item { TrimEndItem(last); } else { TrimEndClass(last); }
    } else {
      assert lines[..m] == u.lines[..m];
      if !InFence(u.lines[..m]) { TrimEndClass(last); }
      if u.kind == Item {
        FirstStarts(u.lines[..m]);
        ItemOfClass(lines[0]);
      }
    }
  }

  lemma ItemOfClass(line: Line)
    requires ClassOf(line) == StartsItem
    ensures IsItem(line)
  {
  }

  lemma TailClosedCallout(lines: seq<Line>)
    requires IsCallout(lines, true)
    ensures IsCallout(StripTail(lines), true)
  {
    hide StripTail, TrimEnd;
    var n := |lines| - 1;
    assert lines[n][0] == '<';
    var m := StripTailKeeps(lines);
    var r := StripTail(lines);
    MarkEdges(lines[m]);
    assert r[1..|r| - 1] == lines[1..n];
  }

  lemma TailOpenCallout(lines: seq<Line>)
    requires IsCallout(lines, false)
    ensures IsCallout(StripTail(lines), false)
  {
    hide StripTail, TrimEnd;
    assert lines[0][0] == '<';
    var m := StripTailKeeps(lines);
    var r := StripTail(lines);
    MarkEdges(lines[m]);
    forall k | 0 <= k < |r[1..]| ensures !(CALLOUT_END <= r[1..][k]) {
      assert r[1..][k] == r[k + 1] && lines[1..][k] == lines[k + 1];
    }
  }

  lemma UnitHasText(u: Unit, layer: string)
    requires UnitOk(u, layer)
    ensures !Blank(u.lines[0])
  {
    if u.kind == Callout { assert u.lines[0][0] == '<'; } else { FirstNotBlank(u.kind, u.lines); }
  }

  lemma TailOk(u: Unit, layer: string)
    requires UnitOk(u, layer)
    ensures UnitOk(TailUnit(u), layer)
    ensures var lines := TailUnit(u).lines;
            !Blank(lines[|lines| - 1]) && TrimEnd(lines[|lines| - 1]) == lines[|lines| - 1]
    ensures TailUnit(u).kind != u.kind ==>
            u.kind == Item && |TailUnit(u).lines| == 1 && ClassOf(TailUnit(u).lines[0]) == Continues
  {
    hide ClassOf, Runs, IsItem;
    UnitHasText(u, layer);
    var m := StripTailKeeps(u.lines);
    BlankEdges(u.lines[m]);
    TrimIsTrimmed(u.lines[m]);
    if u.kind == Callout {
      if IsCallout(u.lines, true) { TailClosedCallout(u.lines); } else { TailOpenCallout(u.lines); }
    } else {
      TailRuns(u, m);
    }
  }

  /** The units a text ends with, stripped. A mark alone after an item is read as that item's last line. */
  function TailUnits(units: seq<Unit>): seq<Unit>
    requires units != []
  {
    var n := |units| - 1;
    var last := TailUnit(units[n]);
    if Swallowed(units)
    then units[..n - 1] + [units[n - 1].(lines := units[n - 1].lines + last.lines)]
    else units[..n] + [last]
  }

  /** The last unit is an item that stripping makes a mark alone, and another item stands right before it. */
  predicate Swallowed(units: seq<Unit>) {
    && |units| > 1
    && var n := |units| - 1;
       units[n].kind == Item && units[n - 1].kind == Item && TailUnit(units[n]).kind != Item
  }

  lemma SwallowOk(a: Unit, line: Line, layer: string)
    requires UnitOk(a, layer) && a.kind == Item && ClassOf(line) == Continues
    ensures UnitOk(a.(lines := a.lines + [line]), layer)
  {
    assert (a.lines + [line])[..|a.lines|] == a.lines;
    if line == [] { assert Blank(line); }
  }

  lemma TailUnitsOk(units: seq<Unit>, layer: string)
    requires units != [] && UnitsOk(units, layer) && AllClosed(Front(units))
    ensures TailUnits(units) != [] && UnitsOk(TailUnits(units), layer) && AllClosed(Front(TailUnits(units)))
  {
    hide UnitOk, Closed;
    var n := |units| - 1;
    var r := TailUnits(units);
    assert UnitOk(units[n], layer);
    TailOk(units[n], layer);
    if Swallowed(units) {
      var last := TailUnit(units[n]);
      assert UnitOk(units[n - 1], layer);
      assert last.lines == [last.lines[0]];
      SwallowOk(units[n - 1], last.lines[0], layer);
    }
    forall k | 0 <= k < |Front(r)| ensures Closed(Front(r)[k]) { assert Front(r)[k] == Front(units)[k]; }
    forall k | 0 <= k < |r| ensures UnitOk(r[k], layer) { assert k < |r| - 1 ==> r[k] == units[k]; }
  }

  function Before(units: seq<Unit>): seq<Line>
    requires units != []
  {
    var n := |units| - 1;
    if n == 0 then [] else UnitsText(units[..n]) + Gap(units[n - 1], units[n])
  }

  lemma UnitsTextLast(units: seq<Unit>)
    requires units != []
    ensures UnitsText(units) == Before(units) + units[|units| - 1].lines
  {
    if |units| == 1 { assert Before(units) + units[0].lines == units[0].lines; }
  }

  lemma TailUnitsText(units: seq<Unit>, layer: string)
    requires units != [] && UnitsOk(units, layer)
    ensures UnitsText(TailUnits(units)) == StripTail(UnitsText(units))
  {
    hide UnitsText, StripTail, IsItem, Before, Runs, IsCallout;
    var n := |units| - 1;
    var r := TailUnits(units);
    assert UnitOk(units[n], layer);
    UnitHasText(units[n], layer);
    UnitsTextLast(units);
    UnitsTextLast(r);
    StripTailAppends(Before(units), units[n].lines);
    if Swallowed(units) {
      SwallowedText(units);
    } else {
      TailOk(units[n], layer);
      SameBefore(units, r);
    }
  }

  lemma SameBefore(a: seq<Unit>, b: seq<Unit>)
    requires a != [] && |a| == |b| && a[..|a| - 1] == b[..|a| - 1]
    requires |a| > 1 && a[|a| - 2].kind == Item ==> (a[|a| - 1].kind == Item <==> b[|b| - 1].kind == Item)
    ensures Before(a) == Before(b)
  {
    hide UnitsText;
    var n := |a| - 1;
    if n > 0 { assert a[..n][n - 1] == b[..n][n - 1]; }
  }

  lemma SwallowedText(units: seq<Unit>)
    requires Swallowed(units)
    ensures Before(units) + StripTail(units[|units| - 1].lines) ==
            Before(TailUnits(units)) + TailUnits(units)[|units| - 2].lines
  {
    hide UnitsText, StripTail;
    var n := |units| - 1;
    var r := TailUnits(units);
    UnitsTextLast(units[..n]);
    assert r[..n - 1] == units[..n][..n - 1];
    assert Before(r) == Before(units[..n]);
    assert Before(r) + units[n - 1].lines + StripTail(units[n].lines) ==
           Before(r) + (units[n - 1].lines + StripTail(units[n].lines));
    assert UnitsText(units[..n]) + [] == UnitsText(units[..n]);
  }

  // ---- the first unit -------------------------------------------------------------------------------

  /** The first unit of a text, stripped, as its first line is then read. */
  function HeadUnit(u: Unit): Unit
    requires u.lines != []
  {
    var first := DropSpaces(u.lines[0]);
    Unit(match ClassOf(first) case StartsItem => Item case StartsCallout => Callout case _ => Paragraph,
         [first] + u.lines[1..], u.layer)
  }

  lemma DropSpacesClass(line: Line)
    requires ClassOf(line) in {Fences, Continues}
    ensures ClassOf(line) == Fences ==> ClassOf(DropSpaces(line)) == Fences
    ensures ClassOf(line) == Continues ==> ClassOf(DropSpaces(line)) in {StartsCallout, Heads, StartsItem, Continues}
  {
    if Blank(line) { BlankDrops(line); }
    BlankEdges(line);
    FenceEdges(line);
    var first := DropSpaces(line);
    if IsFence(line) { FenceStarts(first); }
  }

  lemma FenceStarts(line: Line)
    requires IsFence(line) && line != [] && !IsSpace(line[0])
    ensures line[0] == '`'
  {
    var n := TrimEndKeeps(line);
    assert DropSpaces(line) == line;
    assert FENCE[0] == '`';
    assert FENCE <= line[..n];
  }

  /** A paragraph whose first line is no fence has none. */
  lemma {:induction false} PlainLines(lines: seq<Line>, k: nat)
    requires Runs(Paragraph, lines) && !IsFence(lines[0]) && k < |lines|
    ensures !InFence(lines) && !Blank(lines[k]) && (k > 0 ==> ClassOf(lines[k]) == Continues)
  {
    var n := |lines| - 1;
    if n == 0 {
      StartNotBlank(Paragraph, lines[0]);
      assert InFence(lines) == (InFence(lines[..0]) != IsFence(lines[0]));
    } else {
      PlainLines(lines[..n], if k < n then k else 0);
      assert lines[..n][0] == lines[0];
      if lines[n] == [] { assert Blank(lines[n]); }
      if k < n { assert lines[..n][k] == lines[k]; }
    }
  }

  lemma {:induction false} HeadFence(first: Line, lines: seq<Line>)
    requires lines != [] && IsFence(first) == IsFence(lines[0])
    ensures InFence([first] + lines[1..]) == InFence(lines)
  {
    var n := |lines| - 1;
    var r := [first] + lines[1..];
    if n == 0 {
      assert r[..0] == lines[..0];
    } else {
      HeadFence(first, lines[..n]);
      assert r[..n] == [first] + lines[..n][1..];
    }
  }

  lemma {:induction false} HeadRuns(first: Line, lines: seq<Line>, kind: Kind)
    requires Runs(Paragraph, lines) && IsFence(first) == IsFence(lines[0]) && kind != Callout && MayStart(kind, first)
    ensures Runs(kind, [first] + lines[1..])
  {
    hide ClassOf, InFence, IsFence;
    var n := |lines| - 1;
    var r := [first] + lines[1..];
    if n > 0 {
      HeadRuns(first, lines[..n], kind);
      HeadFence(first, lines[..n]);
      assert r[..n] == [first] + lines[..n][1..];
    }
  }

  lemma HeadUnitOk(u: Unit, layer: string)
    requires UnitOk(u, layer) && u.kind == Paragraph
    requires var h := HeadUnit(u);
             ClassOf(h.lines[0]) != Heads
               && (h.kind == Callout ==> IsCallout(h.lines, true) || IsCallout(h.lines, false))
    ensures UnitOk(HeadUnit(u), layer)
    ensures HeadUnit(u).kind != Callout && Closed(u) ==> Closed(HeadUnit(u))
  {
    hide ClassOf, IsCallout;
    var first := DropSpaces(u.lines[0]);
    RunsPrefix(Paragraph, u.lines, 0);
    DropSpacesClass(u.lines[0]);
    FenceEdges(u.lines[0]);
    HeadFence(first, u.lines);
    UnitHasText(u, layer);
    BlankEdges(u.lines[0]);
    if HeadUnit(u).kind != Callout { HeadRuns(first, u.lines, HeadUnit(u).kind); }
  }

  // ---- units of one line ------------------------------------------------------------------------------

  lemma MarkContinues()
    ensures var mark: Line := "#"; ClassOf(mark) == Continues && !Blank(mark)
  {
    var mark: Line := "#";
    assert mark[0] == '#' && !IsSpace('#');
    NotFence(mark);
    assert Run(mark[1..], {'#'}) == 0 && Run(mark, DIGITS) == 0;
  }

  lemma OneLine(u: Unit)
    requires |u.lines| == 1 && u.lines[0] != [] && u.kind != Callout
    requires ClassOf(u.lines[0]) == if u.kind == Item then StartsItem else Continues
    ensures UnitOk(u, u.layer) && Closed(u)
  {
    var none: seq<Line> := [];
    assert u.lines[..0] == none;
    assert !IsFence(u.lines[0]);
    assert InFence(u.lines) == (InFence(none) != IsFence(u.lines[0]));
  }
}
