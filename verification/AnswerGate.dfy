/** The answering loop: verify a draft, retry once if the gate would suppress it, and ship only what the gate passes. */
module AnswerGate {
  import opened Options
  import opened Text
  import opened Figures
  import opened AnswerLedger

  datatype Citation = Citation(reference: string, quote: string)

  datatype Draft = Draft(refused: bool, text: string, citations: seq<Citation>)

  datatype Problem = NotSurfaced(reference: string) | UnknownPage(reference: string) | NoQuote(reference: string)
                   | QuoteNotFound(reference: string) | NoCitations

  datatype Verdict = Verdict(figures: seq<string>, problems: seq<Problem>)

  datatype Label = Clean | Partial | Failed

  /** How pages are read and text is normalised: a reference's page; a page's text as this run read it; a
      quote; the two forms of a page a quote is looked for in; and how figures are read. */
  datatype World = World(pathOf: string -> Path, page: (Path, seq<nat>) -> Option<string>, quote: string -> string,
                         forms: string -> (string, string), reader: Reader)

  // ---- judging a draft ----------------------------------------------------------------------------------

  function EvidenceText(evidence: seq<string>): string {
    if evidence == [] then ""
    else
      var n := |evidence| - 1;
      if n == 0 then evidence[0] else EvidenceText(evidence[..n]) + "\n" + evidence[n]
  }

  function WindowsOf(windows: seq<Window>, path: Path): seq<nat> {
    if windows == [] then []
    else
      var n := |windows| - 1;
      WindowsOf(windows[..n], path) + if windows[n].path == path then [windows[n].number] else []
  }

  predicate Within(part: string, whole: string) {
    exists i :: 0 <= i <= |whole| - |part| && StandsAt(part, whole, i)
  }

  predicate StandsAt(part: string, whole: string, i: int) { 0 <= i <= |whole| - |part| && whole[i..i + |part|] == part }

  /** A citation names a page this run surfaced, that is there, and quotes it. */
  function ProblemOf(w: World, l: Ledger, c: Citation): seq<Problem> {
    var path := w.pathOf(c.reference);
    if path !in l.pages then [NotSurfaced(c.reference)]
    else
      var page := w.page(path, WindowsOf(l.windows, path));
      if page.None? || page.value == "" then [UnknownPage(c.reference)]
      else if w.quote(c.quote) == "" then [NoQuote(c.reference)]
      else
        var forms := w.forms(page.value);
        if Within(w.quote(c.quote), forms.0) || Within(w.quote(c.quote), forms.1) then []
        else [QuoteNotFound(c.reference)]
  }

  function ProblemsOf(w: World, l: Ledger, citations: seq<Citation>): seq<Problem> {
    if citations == [] then []
    else
      var n := |citations| - 1;
      ProblemsOf(w, l, citations[..n]) + ProblemOf(w, l, citations[n])
  }

  function Verify(w: World, l: Ledger, d: Draft): Verdict {
    if d.refused then Verdict([], [])
    else
      Verdict(Unverified(w.reader, d.text, EvidenceText(l.evidence)),
              ProblemsOf(w, l, d.citations) + if d.citations == [] && !Blank(d.text) then [NoCitations] else [])
  }

  function Quotes(citations: seq<Citation>): string {
    if citations == [] then ""
    else
      var n := |citations| - 1;
      if n == 0 then citations[0].quote else Quotes(citations[..n]) + " " + citations[n].quote
  }

  function Unique(items: seq<string>): (r: seq<string>)
    ensures forall x :: x in r <==> x in items
    ensures |r| <= |items|
  {
    if items == [] then []
    else
      var n := |items| - 1;
      var before := Unique(items[..n]);
      assert items == items[..n] + [items[n]];
      if items[n] in before then before else before + [items[n]]
  }

  /** Untraced figures of every channel that would ship, the quotes included. */
  function GateFigures(w: World, l: Ledger, d: Draft, v: Verdict): seq<string> {
    Unique(v.figures + Unverified(w.reader, Quotes(d.citations), EvidenceText(l.evidence)))
  }

  function LabelOf(count: nat): Label { if count == 0 then Clean else if count == 1 then Partial else Failed }

  const SUPPRESSES := 2

  /** 0 ships clean, or is a refusal; 1 ships partial; 2 is suppressed. */
  function RankOf(w: World, l: Ledger, d: Draft, v: Verdict): nat {
    if d.refused then 0
    else
      var figures := GateFigures(w, l, d, v);
      var grade := LabelOf(|figures| + |v.problems|);
      if figures != [] || grade == Failed then SUPPRESSES else if grade == Clean then 0 else 1
  }

  // ---- what is answered -------------------------------------------------------------------------------------

  datatype Response =
    | Shipped(draft: Draft, grade: Label, problems: seq<Problem>, retried: bool)
    | Suppressed(figures: seq<string>, problems: seq<Problem>, retried: bool)
    | Declined(retried: bool)
    | OutOfBudget(retried: bool)

  function Shape(w: World, l: Ledger, d: Draft, v: Verdict, retried: bool): Response {
    if d.refused then Declined(retried)
    else
      var figures := GateFigures(w, l, d, v);
      var grade := LabelOf(|figures| + |v.problems|);
      if figures != [] || grade == Failed then Suppressed(figures, v.problems, retried)
      else Shipped(d, grade, v.problems, retried)
  }

  /** One run of the agent: what its tools noted, and the draft it ended with unless its budget ran out. */
  datatype Run = Run(notes: seq<Note>, draft: Option<Draft>)

  /** The answer after a first draft, and the ledger it leaves. */
  function Answered(w: World, l: Ledger, first: Draft, second: Run): (Response, Ledger) {
    var v := Verify(w, l, first);
    if RankOf(w, l, first, v) != SUPPRESSES then (Shape(w, l, first, v, false), l)
    else
      var later := NoteAll(l, second.notes);
      if second.draft.None? then (Shape(w, later, first, v, true), later)
      else
        var d := second.draft.value;
        var v2 := Verify(w, later, d);
        if RankOf(w, later, d, v2) < RankOf(w, l, first, v) then (Shape(w, later, d, v2, true), later)
        else (Shape(w, later, first, v, true), later)
  }

  // ---- recovery when the budget is spent ----------------------------------------------------------------------

  const PAGE_CAP := 3

  /** What the server gathers itself: a search, if the run surfaced nothing and did not try the question, then
      the first pages; `cut` is where a statement deadline cancels it. */
  datatype Recovery = Recovery(search: seq<Note>, read: Path -> seq<Note>, cut: Option<nat>, draft: Option<Draft>)

  function Searching(l: Ledger, question: string, r: Recovery): seq<Note> {
    if l.pages == [] && question !in l.searched then r.search else []
  }

  function Reading(r: Recovery, paths: seq<Path>): seq<Note> {
    if paths == [] then [] else Reading(r, paths[..|paths| - 1]) + r.read(paths[|paths| - 1])
  }

  function Gathered(l: Ledger, question: string, r: Recovery): seq<Note> {
    Searching(l, question, r) + Reading(r, UpTo(NoteAll(l, Searching(l, question, r)).pages, PAGE_CAP))
  }

  predicate Cancelled(l: Ledger, question: string, r: Recovery) {
    r.cut.Some? && r.cut.value < |Gathered(l, question, r)|
  }

  /** The recovered answer, if one ships, and the ledger. */
  function Recovered(w: World, l: Ledger, question: string, r: Recovery): (Option<Response>, Ledger) {
    if Cancelled(l, question, r) then (None, l)
    else
      var later := NoteAll(l, Gathered(l, question, r));
      if later.pages == [] || r.draft.None? || r.draft.value.refused then (None, later)
      else
        var d := r.draft.value;
        var v := Verify(w, later, d);
        if RankOf(w, later, d, v) != 0 then (None, later) else (Some(Shape(w, later, d, v, true)), later)
  }

  /** The whole loop: the server's first search, the first run, and then a retry or a recovery. */
  function Ask(w: World, l: Ledger, question: string, search: seq<Note>, cancelled: bool, first: Run, second: Run,
               recovery: Recovery):
    (Response, Ledger)
  {
    var begun := if cancelled then l else NoteAll(l, search);
    var ran := NoteAll(begun, first.notes);
    if first.draft.Some? then Answered(w, ran, first.draft.value, second)
    else
      var r := Recovered(w, ran, question, recovery);
      (if r.0.Some? then r.0.value else OutOfBudget(false), r.1)
  }

  // ---- evidence only helps ------------------------------------------------------------------------------------

  lemma {:induction false} TextGrows(a: seq<string>, b: seq<string>)
    ensures a == [] || b == [] || EvidenceText(a + b) == EvidenceText(a) + "\n" + EvidenceText(b)
    ensures a == [] ==> EvidenceText(a + b) == EvidenceText(b)
    ensures b == [] ==> EvidenceText(a + b) == EvidenceText(a)
  {
    if a == [] { assert a + b == b; }
    if b == [] { assert a + b == a; }
    if a != [] && b != [] {
      var n := |b| - 1;
      TextGrows(a, b[..n]);
      assert (a + b)[..|a + b| - 1] == a + b[..n];
      if n == 0 {
        assert a + b[..n] == a;
      } else {
        assert EvidenceText(a) + "\n" + EvidenceText(b[..n]) + "\n" + b[n] ==
               EvidenceText(a) + "\n" + (EvidenceText(b[..n]) + "\n" + b[n]);
      }
    }
  }

  /** What earlier evidence backs, later evidence backs. */
  lemma LaterHelps(r: Reader, text: string, a: seq<string>, b: seq<string>)
    requires Lawful(r) && a <= b
    ensures forall d :: d in Unverified(r, text, EvidenceText(b)) ==> d in Unverified(r, text, EvidenceText(a))
    ensures NumberPool(r, EvidenceText(a)) <= NumberPool(r, EvidenceText(b))
  {
    var rest := b[|a|..];
    assert b == a + rest;
    TextGrows(a, rest);
    if a != [] && rest != [] {
      EvidenceHelps(r, text, EvidenceText(a), EvidenceText(rest));
      PoolGrows(r, EvidenceText(a), EvidenceText(rest));
    } else if a == [] {
      forall d ensures d in Unverified(r, text, EvidenceText(b)) ==> d in Unverified(r, text, "") {
        FewerMissing(r, r.tokens(text), {}, NumberPool(r, EvidenceText(b)), d);
      }
    }
  }

  lemma NoneLeft(items: seq<string>)
    ensures Unique(items) == [] <==> items == []
  {
    if items != [] { assert items[0] in Unique(items); }
  }

  /** A draft shown against later evidence ranks no worse. */
  lemma LaterRank(w: World, a: Ledger, b: Ledger, d: Draft, v: Verdict)
    requires Lawful(w.reader) && Grows(a, b)
    ensures RankOf(w, b, d, v) <= RankOf(w, a, d, v)
  {
    LaterHelps(w.reader, Quotes(d.citations), a.evidence, b.evidence);
    NoneLeft(v.figures + Unverified(w.reader, Quotes(d.citations), EvidenceText(a.evidence)));
    NoneLeft(v.figures + Unverified(w.reader, Quotes(d.citations), EvidenceText(b.evidence)));
    var later := Unverified(w.reader, Quotes(d.citations), EvidenceText(b.evidence));
    if later != [] { assert later[0] in Unverified(w.reader, Quotes(d.citations), EvidenceText(a.evidence)); }
  }

  // ---- what a good citation is ------------------------------------------------------------------------------

  /** The quote stands in the text. */
  ghost predicate HoldsQuote(text: string, quote: string) { exists before, after :: text == before + quote + after }

  /** A citation that is good: its page was surfaced and is there, and its quote says something and stands in the
      page as it was read, in one of its two forms. */
  ghost predicate GoodCitation(w: World, l: Ledger, c: Citation) {
    && w.pathOf(c.reference) in l.pages
    && var page := w.page(w.pathOf(c.reference), WindowsOf(l.windows, w.pathOf(c.reference)));
       && page.Some? && page.value != "" && w.quote(c.quote) != ""
       && (HoldsQuote(w.forms(page.value).0, w.quote(c.quote)) || HoldsQuote(w.forms(page.value).1, w.quote(c.quote)))
  }

  /** The faults of an answer's citations: each that is not good, and that there is none for a text. */
  ghost function BadCitations(w: World, l: Ledger, citations: seq<Citation>): nat {
    if citations == [] then 0
    else
      var n := |citations| - 1;
      BadCitations(w, l, citations[..n]) + if GoodCitation(w, l, citations[n]) then 0 else 1
  }

  ghost function Faults(w: World, l: Ledger, d: Draft): nat {
    BadCitations(w, l, d.citations) + if d.citations == [] && !Blank(d.text) then 1 else 0
  }

  lemma WithinIsQuoted(part: string, whole: string)
    ensures Within(part, whole) <==> HoldsQuote(whole, part)
  {
    if Within(part, whole) {
      var i :| 0 <= i <= |whole| - |part| && StandsAt(part, whole, i);
      assert whole == whole[..i] + part + whole[i + |part|..];
    }
    if HoldsQuote(whole, part) {
      var before, after :| whole == before + part + after;
      assert StandsAt(part, whole, |before|);
    }
  }

  lemma ProblemIsFault(w: World, l: Ledger, c: Citation)
    ensures |ProblemOf(w, l, c)| == if GoodCitation(w, l, c) then 0 else 1
  {
    hide Within, HoldsQuote;
    var page := w.page(w.pathOf(c.reference), WindowsOf(l.windows, w.pathOf(c.reference)));
    if page.Some? {
      WithinIsQuoted(w.quote(c.quote), w.forms(page.value).0);
      WithinIsQuoted(w.quote(c.quote), w.forms(page.value).1);
    }
  }

  lemma {:induction false} ProblemsAreBad(w: World, l: Ledger, citations: seq<Citation>)
    ensures |ProblemsOf(w, l, citations)| == BadCitations(w, l, citations)
  {
    hide ProblemOf, GoodCitation;
    if citations != [] {
      var n := |citations| - 1;
      ProblemsAreBad(w, l, citations[..n]);
      ProblemIsFault(w, l, citations[n]);
    }
  }

  /** The references of the citations that are not good, in order: those the problems name. */
  ghost function BadReferences(w: World, l: Ledger, citations: seq<Citation>): seq<string> {
    if citations == [] then []
    else
      var n := |citations| - 1;
      BadReferences(w, l, citations[..n]) + if GoodCitation(w, l, citations[n]) then [] else [citations[n].reference]
  }

  function References(problems: seq<Problem>): seq<string> {
    if problems == [] then []
    else
      var n := |problems| - 1;
      References(problems[..n]) + if problems[n].NoCitations? then [] else [problems[n].reference]
  }

  lemma {:induction false} ReferencesAppend(a: seq<Problem>, b: seq<Problem>)
    ensures References(a + b) == References(a) + References(b)
  {
    if b == [] {
      assert a + b == a;
    } else {
      ReferencesAppend(a, b[..|b| - 1]);
      assert (a + b)[..|a + b| - 1] == a + b[..|b| - 1];
    }
  }

  lemma ProblemNames(w: World, l: Ledger, c: Citation)
    ensures References(ProblemOf(w, l, c)) == if GoodCitation(w, l, c) then [] else [c.reference]
  {
    hide GoodCitation, Within;
    ProblemIsFault(w, l, c);
    var problems := ProblemOf(w, l, c);
    if problems != [] { assert problems == [problems[0]] && problems[..0] == []; }
  }

  lemma {:induction false} ProblemsName(w: World, l: Ledger, citations: seq<Citation>)
    ensures References(ProblemsOf(w, l, citations)) == BadReferences(w, l, citations)
  {
    hide ProblemOf, GoodCitation, References;
    if citations == [] {
      assert References([]) == [] by { NoReferences(); }
    } else {
      var n := |citations| - 1;
      ProblemsName(w, l, citations[..n]);
      ProblemNames(w, l, citations[n]);
      ReferencesAppend(ProblemsOf(w, l, citations[..n]), ProblemOf(w, l, citations[n]));
    }
  }

  lemma NoReferences()
    ensures References([]) == []
  {
  }

  /** A draft that is no refusal has as many citation problems as its citations have faults, one for each citation
      that is not good, which it names. */
  lemma ProblemsAreFaults(w: World, l: Ledger, d: Draft)
    ensures |Verify(w, l, d).problems| == if d.refused then 0 else Faults(w, l, d)
    ensures !d.refused ==> References(Verify(w, l, d).problems) == BadReferences(w, l, d.citations)
  {
    ProblemsAreBad(w, l, d.citations);
    ProblemsName(w, l, d.citations);
    ReferencesAppend(ProblemsOf(w, l, d.citations), [NoCitations]);
    assert [NoCitations][..0] == [] && References([NoCitations]) == [];
    assert ProblemsOf(w, l, d.citations) + [] == ProblemsOf(w, l, d.citations);
  }

  lemma {:induction false} NoFaults(w: World, l: Ledger, citations: seq<Citation>)
    ensures BadCitations(w, l, citations) == 0 <==> forall c :: c in citations ==> GoodCitation(w, l, c)
  {
    hide GoodCitation;
    if citations != [] {
      var n := |citations| - 1;
      NoFaults(w, l, citations[..n]);
      assert citations == citations[..n] + [citations[n]];
    }
  }

  /** An answer shipped clean has only good citations, and one at least unless its text is blank; one shipped partial
      has exactly one fault. */
  ghost predicate WellCited(w: World, judged: Ledger, a: Response)
    requires a.Shipped?
  {
    match a.grade
    case Clean => (forall c :: c in a.draft.citations ==> GoodCitation(w, judged, c))
                  && (a.draft.citations != [] || Blank(a.draft.text))
    case Partial => Faults(w, judged, a.draft) == 1
    case Failed => false
  }

  lemma GradeIsWellCited(w: World, judged: Ledger, a: Response)
    requires a.Shipped? && a.problems == Verify(w, judged, a.draft).problems && !a.draft.refused
    requires a.grade == LabelOf(|a.problems|) && |a.problems| <= 1
    ensures WellCited(w, judged, a)
  {
    hide GoodCitation;
    ProblemsAreFaults(w, judged, a.draft);
    NoFaults(w, judged, a.draft.citations);
  }

  // ---- what ships -----------------------------------------------------------------------------------------------

  /** Every figure of the text and of the quotes is backed by this evidence. */
  ghost predicate Traced(w: World, evidence: seq<string>, d: Draft) {
    var pool := NumberPool(w.reader, EvidenceText(evidence));
    AllBacked(w.reader, w.reader.tokens(d.text), pool)
      && AllBacked(w.reader, w.reader.tokens(Quotes(d.citations)), pool)
  }

  lemma ShapeShips(w: World, a: Ledger, b: Ledger, d: Draft, retried: bool)
    requires Lawful(w.reader) && Grows(a, b)
    ensures var s := Shape(w, b, d, Verify(w, a, d), retried);
            s.Shipped? ==>
              && s.draft == d && !d.refused && Traced(w, b.evidence, d) && s.problems == Verify(w, a, d).problems
              && |s.problems| <= 1 && s.grade == LabelOf(|s.problems|) && WellCited(w, a, s)
  {
    hide WellCited, ProblemsOf, AllBacked, Unique;
    var v := Verify(w, a, d);
    if !d.refused {
      NoneLeft(v.figures + Unverified(w.reader, Quotes(d.citations), EvidenceText(b.evidence)));
      UnverifiedIsUnbacked(w.reader, d.text, EvidenceText(a.evidence));
      UnverifiedIsUnbacked(w.reader, Quotes(d.citations), EvidenceText(b.evidence));
      LaterHelps(w.reader, d.text, a.evidence, b.evidence);
      if v.figures == [] {
        BackedLater(w.reader, w.reader.tokens(d.text), NumberPool(w.reader, EvidenceText(a.evidence)),
                    NumberPool(w.reader, EvidenceText(b.evidence)));
      }
      var s := Shape(w, b, d, v, retried);
      if s.Shipped? { GradeIsWellCited(w, a, s); }
    }
  }

  lemma BackedLater(r: Reader, tokens: seq<Token>, small: set<Reading>, large: set<Reading>)
    requires AllBacked(r, tokens, small) && small <= large
    ensures AllBacked(r, tokens, large)
  {
    forall t | t in tokens && !IsMarker(t) ensures Backed(r, t, large) {
      assert Backed(r, t, small);
      var reading :| reading in Claimed(r, t) * small;
      assert reading in Claimed(r, t) * large;
    }
  }

  lemma GrowsSame(l: Ledger)
    ensures Grows(l, l)
  {
  }

  /** For every behaviour of the model: a shipped answer was drafted by the model, each figure in its text and
      quotes is backed by this run's tool results, and its citations, judged by what the run had noted by the end of
      it or before, are good, but for at most one fault, which its grade says. */
  lemma NothingUnbackedShips(w: World, l: Ledger, question: string, search: seq<Note>, cancelled: bool, first: Run,
                             second: Run, recovery: Recovery)
    requires Lawful(w.reader)
    ensures var (a, after) := Ask(w, l, question, search, cancelled, first, second, recovery);
            a.Shipped? ==>
              && Some(a.draft) in {first.draft, second.draft, recovery.draft} && !a.draft.refused
              && Traced(w, after.evidence, a.draft) && |a.problems| <= 1 && (a.grade == Clean <==> a.problems == [])
              && exists judged :: Grows(judged, after) && WellCited(w, judged, a)
  {
    hide Verify, Shape, RankOf, NoteAll, Gathered, Cancelled, Traced, WellCited, Grows;
    var begun := if cancelled then l else NoteAll(l, search);
    var ran := NoteAll(begun, first.notes);
    if first.draft.Some? {
      var later := NoteAll(ran, second.notes);
      NotesGrow(ran, second.notes);
      GrowsSame(ran);
      GrowsSame(later);
      ShapeShips(w, ran, ran, first.draft.value, false);
      ShapeShips(w, ran, later, first.draft.value, true);
      if second.draft.Some? { ShapeShips(w, later, later, second.draft.value, true); }
    } else if recovery.draft.Some? {
      var later := NoteAll(ran, Gathered(ran, question, recovery));
      GrowsSame(later);
      ShapeShips(w, later, later, recovery.draft.value, true);
    }
  }

  /** The rank of what was answered. */
  function ResponseRank(a: Response): nat {
    match a
    case Shipped(_, grade, _, _) => if grade == Clean then 0 else 1
    case Declined(_) => 0
    case _ => SUPPRESSES
  }

  lemma ShapeRank(w: World, l: Ledger, d: Draft, v: Verdict, retried: bool)
    ensures ResponseRank(Shape(w, l, d, v, retried)) == RankOf(w, l, d, v)
  {
  }

  /** A retry runs only when the first draft would be suppressed, and the answer ranks no worse than either draft
      did when it was judged. */
  lemma NoDraftBeatsTheAnswer(w: World, l: Ledger, first: Draft, second: Run)
    requires Lawful(w.reader)
    ensures var a := Answered(w, l, first, second).0;
            var later := NoteAll(l, second.notes);
            && ResponseRank(a) <= RankOf(w, l, first, Verify(w, l, first))
            && (a.retried ==> !first.refused && RankOf(w, l, first, Verify(w, l, first)) == SUPPRESSES)
            && (a.retried && second.draft.Some? ==>
                 ResponseRank(a) <= RankOf(w, later, second.draft.value, Verify(w, later, second.draft.value)))
  {
    var later := NoteAll(l, second.notes);
    NotesGrow(l, second.notes);
    LaterRank(w, l, later, first, Verify(w, l, first));
    ShapeRank(w, l, first, Verify(w, l, first), false);
    ShapeRank(w, later, first, Verify(w, l, first), true);
    if second.draft.Some? { ShapeRank(w, later, second.draft.value, Verify(w, later, second.draft.value), true); }
  }
}
