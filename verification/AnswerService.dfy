/** The answering loop as it runs, step by step over one question's ledger. */
module AnswerService {
  import opened Options
  import opened Text
  import opened Figures
  import opened AnswerLedger
  import opened AnswerGate

  /** The two forms of each page read, kept by reference while citations are checked. */
  ghost predicate CacheOk(w: World, l: Ledger, cache: map<string, (string, string)>) {
    forall reference :: reference in cache ==>
      var page := w.page(w.pathOf(reference), WindowsOf(l.windows, w.pathOf(reference)));
      page.Some? && cache[reference] == w.forms(page.value)
  }

  method FindWithin(part: string, whole: string) returns (found: bool)
    ensures found == Within(part, whole)
  {
    found := false;
    var i := 0;
    while i <= |whole| - |part| && !found
      invariant 0 <= i
      invariant found ==> Within(part, whole)
      invariant !found ==> forall k :: 0 <= k < i ==> !StandsAt(part, whole, k)
      decreases |whole| - |part| - i, !found
    {
      found := whole[i..i + |part|] == part;
      assert found == StandsAt(part, whole, i);
      i := i + 1;
    }
  }

  method CheckCitation(w: World, ctx: SynthesisContext, c: Citation, cache: map<string, (string, string)>)
    returns (problems: seq<Problem>, more: map<string, (string, string)>)
    requires ctx.Valid() && CacheOk(w, ctx.View(), cache)
    ensures problems == ProblemOf(w, ctx.View(), c) && CacheOk(w, ctx.View(), more)
  {
    more := cache;
    var path := w.pathOf(c.reference);
    if path !in ctx.readPaths { return [NotSurfaced(c.reference)], more; }
    var page := w.page(path, WindowsOf(ctx.windows, path));
    if page.None? || page.value == "" { return [UnknownPage(c.reference)], more; }
    var quote := w.quote(c.quote);
    if quote == "" { return [NoQuote(c.reference)], more; }
    if c.reference !in more {
      more := more[c.reference := w.forms(page.value)];
    }
    var first := FindWithin(quote, more[c.reference].0);
    var second := FindWithin(quote, more[c.reference].1);
    problems := if first || second then [] else [QuoteNotFound(c.reference)];
  }

  method CheckCitations(w: World, ctx: SynthesisContext, citations: seq<Citation>) returns (problems: seq<Problem>)
    requires ctx.Valid()
    ensures problems == ProblemsOf(w, ctx.View(), citations)
  {
    problems := [];
    var cache: map<string, (string, string)> := map[];
    var i := 0;
    while i < |citations|
      invariant i <= |citations| && CacheOk(w, ctx.View(), cache)
                && problems == ProblemsOf(w, ctx.View(), citations[..i])
    {
      assert citations[..i + 1][..i] == citations[..i];
      var found, more := CheckCitation(w, ctx, citations[i], cache);
      problems, cache := problems + found, more;
      i := i + 1;
    }
    assert citations[..i] == citations;
  }

  method VerifyDraft(w: World, ctx: SynthesisContext, d: Draft) returns (v: Verdict)
    requires ctx.Valid()
    ensures v == Verify(w, ctx.View(), d)
  {
    if d.refused { return Verdict([], []); }
    var figures := UnverifiedFigures(w.reader, d.text, EvidenceText(ctx.evidence));
    var problems := CheckCitations(w, ctx, d.citations);
    if d.citations == [] && !Blank(d.text) {
      problems := problems + [NoCitations];
    }
    v := Verdict(figures, problems);
  }

  /** The server's own search; one cancelled leaves the ledger as it was. */
  method FirstSearch(ctx: SynthesisContext, search: seq<Note>, cancelled: bool)
    requires ctx.Valid()
    modifies ctx
    ensures ctx.Valid() && ctx.View() == if cancelled then old(ctx.View()) else NoteAll(old(ctx.View()), search)
  {
    var m := ctx.TakeMark();
    ctx.NoteEach(search);
    if cancelled {
      RewindUndoes(old(ctx.View()), search);
      ctx.Rewind(m);
    }
  }

  /** Gathers a fixed set of evidence, note by note, until the statement deadline if it comes first. */
  method Gather(ctx: SynthesisContext, question: string, r: Recovery) returns (cancelled: bool)
    requires ctx.Valid()
    modifies ctx
    ensures cancelled == Cancelled(old(ctx.View()), question, r)
    ensures ctx.Valid()
    ensures ctx.View() ==
            NoteAll(old(ctx.View()),
                    if cancelled then UpTo(Gathered(old(ctx.View()), question, r), r.cut.value)
                    else Gathered(old(ctx.View()), question, r))
  {
    var notes := Gathered(ctx.View(), question, r);
    cancelled := r.cut.Some? && r.cut.value < |notes|;
    ctx.NoteEach(if cancelled then UpTo(notes, r.cut.value) else notes);
  }

  method CompleteBudgetExhaustion(w: World, ctx: SynthesisContext, question: string, r: Recovery)
      returns (a: Option<Response>)
    requires ctx.Valid()
    modifies ctx
    ensures ctx.Valid() && (a, ctx.View()) == Recovered(w, old(ctx.View()), question, r)
  {
    var m := ctx.TakeMark();
    ghost var before := ctx.View();
    var cancelled := Gather(ctx, question, r);
    if cancelled {
      RewindUndoes(before, UpTo(Gathered(before, question, r), r.cut.value));
      ctx.Rewind(m);
      return None;
    }
    if ctx.order == [] || r.draft.None? || r.draft.value.refused { return None; }
    var d := r.draft.value;
    var v := VerifyDraft(w, ctx, d);
    if RankOf(w, ctx.View(), d, v) != 0 { return None; }
    a := Some(Shape(w, ctx.View(), d, v, true));
  }

  /** Judges a first draft, and spends one retry if the gate would suppress it. */
  method AnswerDraft(w: World, ctx: SynthesisContext, first: Draft, second: Run) returns (a: Response)
    requires ctx.Valid()
    modifies ctx
    ensures ctx.Valid() && (a, ctx.View()) == Answered(w, old(ctx.View()), first, second)
  {
    var out, verdict, retried := first, Verdict([], []), false;
    verdict := VerifyDraft(w, ctx, out);
    var rank := RankOf(w, ctx.View(), out, verdict);
    if !out.refused && rank == SUPPRESSES {
      retried := true;
      ctx.NoteEach(second.notes);
      if second.draft.Some? {
        var again := VerifyDraft(w, ctx, second.draft.value);
        if RankOf(w, ctx.View(), second.draft.value, again) < rank {
          out, verdict := second.draft.value, again;
        }
      }
    }
    a := Shape(w, ctx.View(), out, verdict, retried);
  }

  method AskQuestion(w: World, ctx: SynthesisContext, question: string, search: seq<Note>, cancelled: bool, first: Run,
                     second: Run, recovery: Recovery)
    returns (a: Response)
    requires ctx.Valid()
    modifies ctx
    ensures ctx.Valid()
            && (a, ctx.View()) == Ask(w, old(ctx.View()), question, search, cancelled, first, second, recovery)
  {
    FirstSearch(ctx, search, cancelled);
    ctx.NoteEach(first.notes);
    if first.draft.Some? {
      a := AnswerDraft(w, ctx, first.draft.value, second);
    } else {
      var completed := CompleteBudgetExhaustion(w, ctx, question, recovery);
      a := if completed.Some? then completed.value else OutOfBudget(false);
    }
  }
}
