/** What an answer that ships owes to its run, said of its text, its quotes, and what the tools returned. */
module AnswerFacts {
  import opened Options
  import opened Text
  import opened Figures
  import opened AnswerLedger
  import opened AnswerGate

  // ---- joined texts -------------------------------------------------------------------------------------

  /** Each text stands in `t` at its place. */
  ghost predicate StandAt(items: seq<string>, t: string, at: seq<nat>) {
    && |at| == |items|
    && forall k :: 0 <= k < |items| ==> at[k] + |items[k]| <= |t| && t[at[k]..at[k] + |items[k]|] == items[k]
  }

  /** And between one and the next stands just `mark`. */
  ghost predicate Apart(items: seq<string>, mark: string, t: string, at: seq<nat>)
    requires StandAt(items, t, at)
  {
    forall i, j :: 0 <= i < j < |items| && j == i + 1 ==>
      at[j] == at[i] + |items[i]| + |mark| && t[at[i] + |items[i]|..at[j]] == mark
  }

  /** The places where the texts start in `t`, one after the other from first to last. */
  ghost predicate Starts(items: seq<string>, mark: string, t: string, at: seq<nat>) {
    && items != [] && StandAt(items, t, at) && Apart(items, mark, t, at)
    && at[0] == 0 && |t| == at[|items| - 1] + |items[|items| - 1]|
  }

  ghost predicate JoinedBy(items: seq<string>, mark: string, t: string) {
    if items == [] then t == "" else exists at: seq<nat> :: Starts(items, mark, t, at)
  }

  lemma StandMore(items: seq<string>, t: string, at: seq<nat>, item: string, rest: string, k: nat)
    requires StandAt(items, t, at) && k + |item| <= |t + rest| && (t + rest)[k..k + |item|] == item
    ensures StandAt(items + [item], t + rest, at + [k])
  {
    var all, more := items + [item], at + [k];
    forall i | 0 <= i < |all|
      ensures more[i] + |all[i]| <= |t + rest| && (t + rest)[more[i]..more[i] + |all[i]|] == all[i]
    {
      if i < |items| {
        SameSlice(t, rest, at[i], at[i] + |items[i]|);
        assert more[i] == at[i] && all[i] == items[i];
      }
    }
  }

  lemma ApartMore(items: seq<string>, mark: string, t: string, at: seq<nat>, item: string)
    requires Starts(items, mark, t, at)
    requires StandAt(items + [item], t + (mark + item), at + [|t| + |mark|])
    ensures Apart(items + [item], mark, t + (mark + item), at + [|t| + |mark|])
  {
    var all, more, end := items + [item], at + [|t| + |mark|], t + (mark + item);
    forall i, j | 0 <= i < j < |all| && j == i + 1
      ensures more[j] == more[i] + |all[i]| + |mark| && end[more[i] + |all[i]|..more[j]] == mark
    {
      assert more[i] == at[i] && all[i] == items[i];
      if j < |items| { SameSlice(t, mark + item, at[i] + |items[i]|, at[j]); }
    }
  }

  lemma JoinedMore(items: seq<string>, mark: string, t: string, item: string)
    requires items != [] && JoinedBy(items, mark, t)
    ensures JoinedBy(items + [item], mark, t + mark + item)
  {
    hide StandAt, Apart;
    var at: seq<nat> :| Starts(items, mark, t, at);
    assert t + mark + item == t + (mark + item);
    EndSlices(t, mark, item);
    StandMore(items, t, at, item, mark + item, |t| + |mark|);
    ApartMore(items, mark, t, at, item);
    assert |at| == |items| by { SameCount(items, t, at); }
    assert Starts(items + [item], mark, t + mark + item, at + [|t| + |mark|]);
  }

  lemma SameCount(items: seq<string>, t: string, at: seq<nat>)
    requires StandAt(items, t, at)
    ensures |at| == |items|
  {
  }

  lemma EndSlices(t: string, mark: string, item: string)
    ensures var end := t + mark + item;
            && end[|t|..|t| + |mark|] == mark && end[|t| + |mark|..|t| + |mark| + |item|] == item
  {
  }

  lemma SameSlice(a: string, b: string, i: nat, j: nat)
    requires i <= j <= |a|
    ensures (a + b)[i..j] == a[i..j]
  {
  }

  lemma JoinedOne(item: string, mark: string)
    ensures JoinedBy([item], mark, item)
  {
    assert Starts([item], mark, item, [0]);
  }

  /** The evidence a figure is looked for in: every tool result, line by line. */
  lemma {:induction false} EvidenceIsJoined(evidence: seq<string>)
    ensures JoinedBy(evidence, "\n", EvidenceText(evidence))
  {
    if evidence != [] {
      var n := |evidence| - 1;
      if n == 0 {
        JoinedOne(evidence[0], "\n");
        assert evidence == [evidence[0]];
      } else {
        EvidenceIsJoined(evidence[..n]);
        JoinedMore(evidence[..n], "\n", EvidenceText(evidence[..n]), evidence[n]);
        assert evidence == evidence[..n] + [evidence[n]];
      }
    }
  }

  function QuotesOf(citations: seq<Citation>): (quotes: seq<string>)
    ensures |quotes| == |citations| && forall k :: 0 <= k < |quotes| ==> quotes[k] == citations[k].quote
  {
    seq(|citations|, k requires 0 <= k < |citations| => citations[k].quote)
  }

  /** And the quotes whose figures are judged: every one. */
  lemma {:induction false} QuotesAreJoined(citations: seq<Citation>)
    ensures JoinedBy(QuotesOf(citations), " ", Quotes(citations))
  {
    if citations != [] {
      var n := |citations| - 1;
      if n == 0 {
        JoinedOne(citations[0].quote, " ");
        assert QuotesOf(citations) == [citations[0].quote];
      } else {
        QuotesAreJoined(citations[..n]);
        JoinedMore(QuotesOf(citations[..n]), " ", Quotes(citations[..n]), citations[n].quote);
        assert QuotesOf(citations) == QuotesOf(citations[..n]) + [citations[n].quote];
      }
    }
  }

  // ---- figures ------------------------------------------------------------------------------------------------

  /** A figure of an answer in the one dimension it is written in, and one of the evidence, in the same: scaled values
      as they are or as they stand with their suffix, percentages only as percentages. */
  ghost predicate SameFigure(r: Reader, t: Token, u: Token) {
    exists v, w :: v in Values(t.num) && w in Values(u.num) && SameValue(r, t, v, u, w)
  }

  predicate SameValue(r: Reader, t: Token, v: real, u: Token, w: real) {
    var mine, theirs := Magnitude(t.suffix), Magnitude(u.suffix);
    if mine.None? && t.percent then u.percent && r.canon(v) == r.canon(w)
    else
      var value := r.canon(if mine.Some? then Times(v, mine.value) else v);
      value == r.canon(w) || (theirs.Some? && value == r.canon(Times(w, theirs.value)))
  }

  lemma ClaimIs(r: Reader, t: Token, reading: Reading)
    ensures reading in Claimed(r, t) <==> exists v :: v in Values(t.num) && reading == ReadingOf(r, t, v)
  {
    hide Times, Values, Magnitude;
    if reading in Claimed(r, t) {
      var v := ClaimFrom(r, t, reading);
      assert reading == ReadingOf(r, t, v);
    }
    forall v | v in Values(t.num) && reading == ReadingOf(r, t, v) ensures reading in Claimed(r, t) {
      ClaimHas(r, t, v);
    }
  }

  lemma ClaimFrom(r: Reader, t: Token, reading: Reading) returns (v: real)
    requires reading in Claimed(r, t)
    ensures v in Values(t.num) && reading == ReadingOf(r, t, v)
  {
    hide Times, Values, Magnitude;
    var scale := Magnitude(t.suffix);
    if scale.Some? {
      v := ScaledFrom(r, t.num, scale.value, reading);
    } else if t.percent {
      v :| v in Values(t.num) && reading == Percent(r.canon(v));
    } else {
      v :| v in Values(t.num) && reading == Plain(r.canon(v));
    }
  }

  lemma ScaledFrom(r: Reader, num: string, scale: real, reading: Reading) returns (v: real)
    requires reading in Scaled(r, num, scale)
    ensures v in Values(num) && reading == Plain(r.canon(Times(v, scale)))
  {
    hide Times, Values;
    v :| v in Values(num) && reading == Plain(r.canon(Times(v, scale)));
  }

  /** What a token of the evidence means: its value bare, scaled by its suffix, or as a percentage. */
  ghost predicate Means(r: Reader, u: Token, w: real, reading: Reading) {
    var scale := Magnitude(u.suffix);
    || reading == Plain(r.canon(w)) || (u.percent && reading == Percent(r.canon(w)))
    || (scale.Some? && reading == Plain(r.canon(Times(w, scale.value))))
  }

  lemma MeansIs(r: Reader, u: Token, reading: Reading)
    ensures reading in Interpretations(r, u) <==> exists w :: w in Values(u.num) && Means(r, u, w, reading)
  {
    hide Times, Values, Magnitude, Scaled, Bare, Percents;
    if reading in Interpretations(r, u) {
      var w := MeansFrom(r, u, reading);
    }
    forall w | w in Values(u.num) && Means(r, u, w, reading) ensures reading in Interpretations(r, u) {
      MeansHas(r, u, w);
    }
  }

  lemma MeansFrom(r: Reader, u: Token, reading: Reading) returns (w: real)
    requires reading in Interpretations(r, u)
    ensures w in Values(u.num) && Means(r, u, w, reading)
  {
    hide Times, Values, Magnitude, Scaled;
    var scale := Magnitude(u.suffix);
    if reading in Bare(r, u.num) {
      w :| w in Values(u.num) && reading == Plain(r.canon(w));
    } else if u.percent && reading in Percents(r, u.num) {
      w :| w in Values(u.num) && reading == Percent(r.canon(w));
    } else {
      w := ScaledFrom(r, u.num, scale.value, reading);
    }
  }

  lemma MeansHas(r: Reader, u: Token, w: real)
    requires w in Values(u.num)
    ensures Plain(r.canon(w)) in Bare(r, u.num) && Percent(r.canon(w)) in Percents(r, u.num)
    ensures Magnitude(u.suffix).Some? ==>
              Plain(r.canon(Times(w, Magnitude(u.suffix).value))) in Scaled(r, u.num, Magnitude(u.suffix).value)
  {
    hide Times, Values, Magnitude;
  }

  lemma SameMeans(r: Reader, t: Token, v: real, u: Token, w: real)
    ensures SameValue(r, t, v, u, w) <==> Means(r, u, w, ReadingOf(r, t, v))
  {
    hide Times, Magnitude;
  }

  /** Exactly when a figure is backed: when the evidence holds the same figure. */
  lemma BackedExactly(r: Reader, t: Token, evidence: string)
    ensures Backed(r, t, NumberPool(r, evidence)) <==> exists u :: u in r.tokens(evidence) && SameFigure(r, t, u)
  {
    hide Values, Claimed, Interpretations, SameValue, ReadingOf, PoolOf, Means;
    var pool := NumberPool(r, evidence);
    if Backed(r, t, pool) {
      var reading :| reading in Claimed(r, t) * pool;
      ClaimIs(r, t, reading);
      var v :| v in Values(t.num) && reading == ReadingOf(r, t, v);
      PoolHas(r, r.tokens(evidence), reading);
      var u :| u in r.tokens(evidence) && reading in Interpretations(r, u);
      MeansIs(r, u, reading);
      var w :| w in Values(u.num) && Means(r, u, w, reading);
      SameMeans(r, t, v, u, w);
      assert SameFigure(r, t, u);
    }
    forall u | u in r.tokens(evidence) && SameFigure(r, t, u) ensures Backed(r, t, pool) {
      var v, w :| v in Values(t.num) && w in Values(u.num) && SameValue(r, t, v, u, w);
      SameMeans(r, t, v, u, w);
      MeansIs(r, u, ReadingOf(r, t, v));
      ClaimIs(r, t, ReadingOf(r, t, v));
      PoolHas(r, r.tokens(evidence), ReadingOf(r, t, v));
      assert ReadingOf(r, t, v) in Claimed(r, t) * pool;
    }
  }

  predicate Digit(c: char) { '0' <= c <= '9' }

  /** A bare numeral of one digit, as list markers are. */
  ghost predicate OneDigit(t: Token) {
    && t.suffix.None? && !t.percent
    && exists k :: DigitAt(t.num, k)
  }

  predicate NoDigit(s: string) { forall j :: 0 <= j < |s| ==> !Digit(s[j]) }

  lemma {:induction false} NoneCounted(s: string)
    ensures CountDigits(s) == 0 <==> NoDigit(s)
  {
    if s != [] {
      var n := |s| - 1;
      NoneCounted(s[..n]);
      if NoDigit(s[..n]) { assert forall j :: 0 <= j < n ==> s[..n][j] == s[j]; }
      if NoDigit(s) { assert forall j :: 0 <= j < n ==> s[..n][j] == s[j]; }
    }
  }

  ghost predicate DigitAt(s: string, k: int) {
    0 <= k < |s| && Digit(s[k]) && forall j :: 0 <= j < |s| && j != k ==> !Digit(s[j])
  }

  lemma {:induction false} OneCounted(s: string)
    ensures CountDigits(s) == 1 <==> exists k :: DigitAt(s, k)
  {
    if s != [] {
      var n := |s| - 1;
      OneCounted(s[..n]);
      NoneCounted(s[..n]);
      if Digit(s[n]) {
        if NoDigit(s[..n]) {
          assert forall j :: 0 <= j < n ==> s[..n][j] == s[j];
          assert DigitAt(s, n);
        }
        if k :| DigitAt(s, k) { assert forall j :: 0 <= j < n ==> s[..n][j] == s[j]; }
      } else {
        forall k ensures DigitAt(s, k) <==> DigitAt(s[..n], k) { assert forall j :: 0 <= j < n ==> s[..n][j] == s[j]; }
      }
    }
  }

  lemma MarkerIsOneDigit(t: Token)
    ensures IsMarker(t) <==> OneDigit(t)
  {
    OneCounted(t.num);
  }

  /** Every figure of a text but bare single digits is one of the evidence's. */
  ghost predicate AllTraced(r: Reader, text: string, evidence: string) {
    forall t :: t in r.tokens(text) && !OneDigit(t) ==> exists u :: u in r.tokens(evidence) && SameFigure(r, t, u)
  }

  lemma TracedIsBacked(r: Reader, text: string, evidence: string)
    ensures AllTraced(r, text, evidence) <==> AllBacked(r, r.tokens(text), NumberPool(r, evidence))
  {
    hide SameFigure, Backed, OneDigit, IsMarker;
    forall t ensures IsMarker(t) <==> OneDigit(t) { MarkerIsOneDigit(t); }
    forall t ensures Backed(r, t, NumberPool(r, evidence))
        <==> exists u :: u in r.tokens(evidence) && SameFigure(r, t, u) {
      BackedExactly(r, t, evidence);
    }
  }

  lemma {:induction false} MissingStand(r: Reader, tokens: seq<Token>, pool: set<Reading>)
    ensures forall d :: d in MissingIn(r, tokens, pool) ==> d in Displays(tokens)
  {
    hide IsMarker, Backed;
    if tokens != [] {
      var n := |tokens| - 1;
      MissingStand(r, tokens[..n], pool);
      DisplaysMore(tokens, n);
      assert tokens[..n + 1] == tokens;
    }
  }

  /** Exactly the figures reported: those of the text that are no single digit and that the evidence does not hold,
      each once. */
  lemma {:induction false} MissingAre(r: Reader, tokens: seq<Token>, pool: set<Reading>)
    requires forall t, u :: t in tokens && u in tokens && t.display == u.display ==> t == u
    ensures forall d :: d in MissingIn(r, tokens, pool) <==>
              exists t :: t in tokens && t.display == d && !IsMarker(t) && !Backed(r, t, pool)
    ensures forall i, j :: 0 <= i < j < |MissingIn(r, tokens, pool)| ==>
              MissingIn(r, tokens, pool)[i] != MissingIn(r, tokens, pool)[j]
  {
    hide IsMarker, Backed;
    if tokens != [] {
      var n := |tokens| - 1;
      MissingAre(r, tokens[..n], pool);
      MissingStand(r, tokens[..n], pool);
      assert tokens == tokens[..n] + [tokens[n]];
      var before, all, t := MissingIn(r, tokens[..n], pool), MissingIn(r, tokens, pool), tokens[n];
      if t.display in Displays(tokens[..n]) {
        var k :| 0 <= k < n && !IsMarker(tokens[..n][k]) && tokens[..n][k].display == t.display;
        assert tokens[k] in tokens && t in tokens;
        assert tokens[..n][k] in tokens[..n];
      }
    }
  }

  lemma UnverifiedAre(r: Reader, text: string, evidence: string)
    requires Lawful(r)
    ensures var missing := Unverified(r, text, evidence);
            && (forall d :: d in missing <==>
                  exists t :: t in r.tokens(text) && t.display == d && !OneDigit(t)
                    && !exists u :: u in r.tokens(evidence) && SameFigure(r, t, u))
            && (forall i, j :: 0 <= i < j < |missing| ==> missing[i] != missing[j])
  {
    hide SameFigure, Backed, OneDigit, IsMarker, MissingIn;
    MissingAre(r, r.tokens(text), NumberPool(r, evidence));
    forall t ensures IsMarker(t) <==> OneDigit(t) { MarkerIsOneDigit(t); }
    forall t ensures Backed(r, t, NumberPool(r, evidence))
        <==> exists u :: u in r.tokens(evidence) && SameFigure(r, t, u) {
      BackedExactly(r, t, evidence);
    }
  }

  // ---- the ledger -----------------------------------------------------------------------------------------------

  /** Exactly what a ledger holds after some notes: what it held and what they note; and each page, query and text
      once for each time it is to be kept. */
  lemma {:induction false} NotesKept(l: Ledger, notes: seq<Note>)
    ensures var r := NoteAll(l, notes);
            && (forall t :: t in r.evidence <==> t in l.evidence || Result(t) in notes)
            && (forall p :: p in r.pages <==> p in l.pages || Surfaced(p) in notes)
            && (forall q :: q in r.searched <==> q in l.searched || (q != "" && Tried(q) in notes))
            && (forall x :: x in r.windows <==> x in l.windows || Read(x) in notes)
            && |r.evidence| == |l.evidence| + multiset(notes)[Result("")] + Texts(notes)
  {
    if notes != [] {
      var n := |notes| - 1;
      NotesKept(l, notes[..n]);
      assert notes == notes[..n] + [notes[n]];
    }
  }

  /** The tool results among notes that are not empty. */
  function Texts(notes: seq<Note>): nat {
    if notes == [] then 0
    else Texts(notes[..|notes| - 1]) + match notes[|notes| - 1] case Result(t) => (if t == "" then 0 else 1) case _ => 0
  }

  /** The numbers of a page's windows that were read, in order. */
  ghost predicate NumbersOf(windows: seq<Window>, path: Path, numbers: seq<nat>, at: seq<nat>) {
    && |at| == |numbers| && (forall k :: 0 <= k < |windows| ==> (windows[k].path == path <==> k in at))
    && (forall i :: 0 <= i < |at| ==> at[i] < |windows| && windows[at[i]] == Window(path, numbers[i]))
    && (forall i, j :: 0 <= i < j < |at| ==> at[i] < at[j])
  }

  lemma {:induction false} WindowsAre(windows: seq<Window>, path: Path) returns (at: seq<nat>)
    ensures NumbersOf(windows, path, WindowsOf(windows, path), at)
  {
    at := [];
    if windows != [] {
      var n := |windows| - 1;
      at := WindowsAre(windows[..n], path);
      assert windows == windows[..n] + [windows[n]];
      NumbersMore(windows[..n], path, WindowsOf(windows[..n], path), at, windows[n]);
      if windows[n].path == path { at := at + [n]; }
    }
  }

  lemma NumbersMore(windows: seq<Window>, path: Path, numbers: seq<nat>, at: seq<nat>, last: Window)
    requires NumbersOf(windows, path, numbers, at)
    ensures if last.path == path
            then NumbersOf(windows + [last], path, numbers + [last.number], at + [|windows|])
            else NumbersOf(windows + [last], path, numbers, at)
  {
    var all := windows + [last];
    assert forall k :: 0 <= k < |windows| ==> all[k] == windows[k];
    assert all[|windows|] == last;
    if last.path == path {
      assert forall k :: k in at + [|windows|] <==> k in at || k == |windows|;
    }
  }

  // ---- what ships, and what does not --------------------------------------------------------------------------

  /** Every figure of a draft's text and of its quotes is one of the evidence's. */
  ghost predicate FiguresHold(w: World, l: Ledger, d: Draft) {
    && AllTraced(w.reader, d.text, EvidenceText(l.evidence))
    && AllTraced(w.reader, Quotes(d.citations), EvidenceText(l.evidence))
  }

  lemma TracedIsHeld(w: World, l: Ledger, d: Draft)
    ensures Traced(w, l.evidence, d) <==> FiguresHold(w, l, d)
  {
    hide AllTraced, AllBacked;
    TracedIsBacked(w.reader, d.text, EvidenceText(l.evidence));
    TracedIsBacked(w.reader, Quotes(d.citations), EvidenceText(l.evidence));
  }

  /** For every behaviour of the model: each figure of a shipped answer is one of this run's tool results, in the
      dimension it is written in; its citations are good but for one fault at most, which its grade says; and an
      answer recovered when the budget was spent is clean. */
  lemma OnlySoundShips(w: World, l: Ledger, question: string, search: seq<Note>, cancelled: bool, first: Run,
                       second: Run, recovery: Recovery)
    requires Lawful(w.reader)
    ensures var (a, after) := Ask(w, l, question, search, cancelled, first, second, recovery);
            a.Shipped? ==>
              && Some(a.draft) in {first.draft, second.draft, recovery.draft} && !a.draft.refused
              && FiguresHold(w, after, a.draft)
              && (exists judged :: Grows(judged, after) && WellCited(w, judged, a))
              && (first.draft.None? ==> a.grade == Clean)
  {
    hide WellCited, FiguresHold, Traced, AllBacked, NoteAll;
    NothingUnbackedShips(w, l, question, search, cancelled, first, second, recovery);
    var (a, after) := Ask(w, l, question, search, cancelled, first, second, recovery);
    if a.Shipped? {
      TracedIsHeld(w, after, a.draft);
      if first.draft.None? {
        var ran := NoteAll(if cancelled then l else NoteAll(l, search), first.notes);
        RecoveredIsClean(w, ran, question, recovery);
      }
    }
  }

  lemma RecoveredIsClean(w: World, l: Ledger, question: string, r: Recovery)
    ensures var a := Recovered(w, l, question, r).0; a.Some? && a.value.Shipped? ==> a.value.grade == Clean
  {
    hide Verify, GateFigures, NoteAll;
    if Recovered(w, l, question, r).0.Some? {
      var later := NoteAll(l, Gathered(l, question, r));
      ShapeRank(w, later, r.draft.value, Verify(w, later, r.draft.value), true);
    }
  }

  /** No figures are reported of a draft whose figures hold. */
  lemma HeldIsUnreported(w: World, l: Ledger, d: Draft)
    requires Lawful(w.reader) && !d.refused
    ensures GateFigures(w, l, d, Verify(w, l, d)) == [] <==> FiguresHold(w, l, d)
  {
    hide AllBacked, Unverified, ProblemsOf, Quotes;
    TracedIsHeld(w, l, d);
    UnverifiedIsUnbacked(w.reader, d.text, EvidenceText(l.evidence));
    UnverifiedIsUnbacked(w.reader, Quotes(d.citations), EvidenceText(l.evidence));
    NoneLeft(Verify(w, l, d).figures + Unverified(w.reader, Quotes(d.citations), EvidenceText(l.evidence)));
  }

  /** What becomes of a draft judged and shaped by one ledger: declined if it refuses; shipped if its figures hold and
      its citations have at most one fault, clean if they have none; and else suppressed. */
  ghost predicate ShapedRightly(w: World, l: Ledger, d: Draft, retried: bool, a: Response) {
    if d.refused then a == Declined(retried)
    else if FiguresHold(w, l, d) && Faults(w, l, d) <= 1
    then a.Shipped? && a.draft == d && a.retried == retried
         && a.grade == if Faults(w, l, d) == 0 then Clean else Partial
    else a.Suppressed? && a.retried == retried
  }

  lemma ShapeIsRight(w: World, l: Ledger, d: Draft, retried: bool)
    requires Lawful(w.reader)
    ensures ShapedRightly(w, l, d, retried, Shape(w, l, d, Verify(w, l, d), retried))
    ensures RankOf(w, l, d, Verify(w, l, d)) ==
            if d.refused then 0 else if FiguresHold(w, l, d) && Faults(w, l, d) <= 1 then Faults(w, l, d)
            else SUPPRESSES
  {
    hide Verify, GateFigures, FiguresHold, Faults;
    ProblemsAreFaults(w, l, d);
    if !d.refused { HeldIsUnreported(w, l, d); }
  }

  /** A first draft that is kept after a retry is judged by what was noted before it, but for the figures of its
      quotes, which what was noted since may back. */
  ghost predicate KeptHolds(w: World, l: Ledger, later: Ledger, d: Draft) {
    && AllTraced(w.reader, d.text, EvidenceText(l.evidence))
    && AllTraced(w.reader, Quotes(d.citations), EvidenceText(later.evidence)) && Faults(w, l, d) <= 1
  }

  lemma KeptIsRight(w: World, l: Ledger, later: Ledger, d: Draft)
    requires Lawful(w.reader) && !d.refused
    ensures var a := Shape(w, later, d, Verify(w, l, d), true);
            if KeptHolds(w, l, later, d)
            then a.Shipped? && a.draft == d && a.retried && a.grade == if Faults(w, l, d) == 0 then Clean else Partial
            else a.Suppressed? && a.retried
  {
    hide AllBacked, Unverified, ProblemsOf, Quotes, Faults, AllTraced;
    ProblemsAreFaults(w, l, d);
    TracedIsBacked(w.reader, d.text, EvidenceText(l.evidence));
    TracedIsBacked(w.reader, Quotes(d.citations), EvidenceText(later.evidence));
    UnverifiedIsUnbacked(w.reader, d.text, EvidenceText(l.evidence));
    UnverifiedIsUnbacked(w.reader, Quotes(d.citations), EvidenceText(later.evidence));
    NoneLeft(Verify(w, l, d).figures + Unverified(w.reader, Quotes(d.citations), EvidenceText(later.evidence)));
  }

  /** Exactly what is answered after a first draft: the draft as it is, unless it would be suppressed; then, the tools
      having noted more, the second draft if there is one that would not be, and else the first. */
  lemma AnsweredExactly(w: World, l: Ledger, first: Draft, second: Run)
    requires Lawful(w.reader)
    ensures var (a, after) := Answered(w, l, first, second);
            var stands := first.refused || (FiguresHold(w, l, first) && Faults(w, l, first) <= 1);
            && (stands ==> after == l && ShapedRightly(w, l, first, false, a))
            && (!stands ==>
                  && after == NoteAll(l, second.notes)
                  && if second.draft.Some? && (second.draft.value.refused
                         || (FiguresHold(w, after, second.draft.value) && Faults(w, after, second.draft.value) <= 1))
                     then ShapedRightly(w, after, second.draft.value, true, a)
                     else if KeptHolds(w, l, after, first)
                     then a.Shipped? && a.draft == first && a.retried
                          && a.grade == if Faults(w, l, first) == 0 then Clean else Partial
                     else a.Suppressed? && a.retried)
  {
    hide Verify, GateFigures, FiguresHold, Faults, NoteAll, ShapedRightly, KeptHolds, Shape, RankOf;
    var later := NoteAll(l, second.notes);
    ShapeIsRight(w, l, first, false);
    if !first.refused { KeptIsRight(w, l, later, first); }
    if second.draft.Some? { ShapeIsRight(w, later, second.draft.value, true); }
  }

  /** Exactly what is recovered when the budget is spent: nothing, and the ledger as it was, if the gathering is cut
      off; else the model's answer from what was gathered, if there is a page and a draft that would ship clean. */
  lemma RecoveredExactly(w: World, l: Ledger, question: string, r: Recovery)
    requires Lawful(w.reader)
    ensures var (a, after) := Recovered(w, l, question, r);
            if Cancelled(l, question, r) then a == None && after == l
            else
              && after == NoteAll(l, Gathered(l, question, r))
              && if after.pages != [] && r.draft.Some? && !r.draft.value.refused
                    && FiguresHold(w, after, r.draft.value) && Faults(w, after, r.draft.value) == 0
                 then a.Some? && a.value.Shipped? && a.value.draft == r.draft.value && a.value.grade == Clean
                 else a == None
  {
    hide Verify, GateFigures, FiguresHold, Faults, NoteAll, Gathered, Cancelled;
    var later := NoteAll(l, Gathered(l, question, r));
    if r.draft.Some? { ShapeIsRight(w, later, r.draft.value, true); }
  }

  /** What is gathered: the search, where nothing was surfaced and the question not yet tried; then every result of
      reading the first three pages surfaced by then, or all there are. */
  lemma GathersEnough(l: Ledger, question: string, r: Recovery)
    ensures var searched := l.pages == [] && question !in l.searched;
            var pages := NoteAll(l, if searched then r.search else []).pages;
            forall note :: note in Gathered(l, question, r) <==>
              (searched && note in r.search) || exists k :: 0 <= k < |pages| && k < 3 && note in r.read(pages[k])
  {
    hide NoteAll;
    var pages := NoteAll(l, Searching(l, question, r)).pages;
    var some := UpTo(pages, PAGE_CAP);
    forall note ensures note in AnswerGate.Reading(r, some)
        <==> exists k :: 0 <= k < |pages| && k < 3 && note in r.read(pages[k]) {
      ReadsEach(r, some, note);
      if k :| 0 <= k < |pages| && k < 3 && note in r.read(pages[k]) { assert some[k] == pages[k]; }
    }
  }

  lemma {:induction false} ReadsEach(r: Recovery, paths: seq<Path>, note: Note)
    ensures note in AnswerGate.Reading(r, paths) <==> exists k :: 0 <= k < |paths| && note in r.read(paths[k])
  {
    if paths != [] {
      var n := |paths| - 1;
      ReadsEach(r, paths[..n], note);
      if k :| 0 <= k < |paths| && note in r.read(paths[k]) {
        if k < n { assert paths[..n][k] == paths[k]; }
      }
    }
  }

  lemma {:induction false} NotesAppend(l: Ledger, a: seq<Note>, b: seq<Note>)
    ensures NoteAll(l, a + b) == NoteAll(NoteAll(l, a), b)
  {
    if b == [] {
      assert a + b == a;
    } else {
      NotesAppend(l, a, b[..|b| - 1]);
      assert (a + b)[..|a + b| - 1] == a + b[..|b| - 1];
    }
  }

  /** A question starts with the server's search, unless it is cancelled, and the first run; then a draft is answered,
      and a run without one recovered. */
  lemma AskRuns(w: World, l: Ledger, question: string, search: seq<Note>, cancelled: bool, first: Run, second: Run,
                recovery: Recovery)
    ensures var (a, after) := Ask(w, l, question, search, cancelled, first, second, recovery);
            var ran := NoteAll(l, (if cancelled then [] else search) + first.notes);
            if first.draft.Some? then (a, after) == Answered(w, ran, first.draft.value, second)
            else
              var r := Recovered(w, ran, question, recovery);
              after == r.1 && a == if r.0.Some? then r.0.value else OutOfBudget(false)
  {
    hide Answered, Recovered;
    NotesAppend(l, if cancelled then [] else search, first.notes);
    assert NoteAll(l, []) == l;
  }
}
