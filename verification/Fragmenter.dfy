/** A stored body cut into fragments: exact slices that reassemble it. */
module Fragmenter {
  import opened Text
  import opened LineCutter
  import W = Windows
  import S = Sections

  const SHORT_PAGE_WORDS := 400

  /** Character offsets of a fragment, under a heading trail. */
  datatype Span = Span(start: nat, end: nat, trail: string)

  datatype Fragment = Fragment(ordinal: nat, start: nat, end: nat, trail: string, text: string)

  function SpanOf(lines: seq<Line>, w: W.Window, trail: string): Span
    requires w.first < w.last <= |lines|
  {
    Span(lines[w.first].start, lines[w.last - 1].end, trail)
  }

  function SpansOf(lines: seq<Line>, ws: seq<W.Window>, trail: string): (spans: seq<Span>)
    requires forall k :: 0 <= k < |ws| ==> ws[k].first < ws[k].last <= |lines|
    ensures |spans| == |ws|
    ensures forall k :: 0 <= k < |ws| ==> spans[k] == SpanOf(lines, ws[k], trail)
  {
    seq(|ws|, k requires 0 <= k < |ws| => SpanOf(lines, ws[k], trail))
  }

  function SectionSpans(lines: seq<Line>, s: S.Section): (spans: seq<Span>)
    requires s.first < s.last <= |lines| && W.Bounded(lines)
  {
    W.SectionWindowsSlide(lines, s.first, s.last);
    SpansOf(lines, W.SectionWindows(lines, s.first, s.last), s.trail)
  }

  function AllSpans(lines: seq<Line>, sections: seq<S.Section>): (spans: seq<Span>)
    requires W.Bounded(lines)
    requires forall s :: s in sections ==> s.first < s.last <= |lines|
  {
    if sections == [] then []
    else SectionSpans(lines, sections[0]) + AllSpans(lines, sections[1..])
  }

  // ---- what the spans promise ---------------------------------------------------------------

  /** Span `b` starts strictly after `a` and no later than its end, ends strictly after it, and shares
      with it at most a quarter of its bytes. */
  ghost predicate Follows(body: string, a: Span, b: Span) {
    && a.start < b.start <= a.end < b.end <= |body|
    && 4 * Bytes(body, b.start, a.end) <= Bytes(body, a.start, a.end)
  }

  /** Spans from `lo` to `hi`, each within the byte bound and following the one before. */
  ghost predicate Chain(body: string, spans: seq<Span>, lo: nat, hi: nat) {
    && spans != [] && spans[0].start == lo && spans[|spans| - 1].end == hi
    && (forall k {:trigger spans[k]} :: 0 <= k < |spans| ==>
         && lo <= spans[k].start < spans[k].end <= hi <= |body|
         && Bytes(body, spans[k].start, spans[k].end) <= MAX_FRAGMENT_BYTES
         && |spans[k].trail| <= S.TRAIL_CHARS)
    && (forall i, j {:trigger spans[i], spans[j]} :: 0 <= i < j < |spans| && j == i + 1 ==>
        Follows(body, spans[i], spans[j]))
  }

  lemma ChainAppend(body: string, left: seq<Span>, right: seq<Span>, lo: nat, mid: nat, hi: nat)
    requires Chain(body, left, lo, mid) && Chain(body, right, mid, hi)
    ensures Chain(body, left + right, lo, hi)
  {
    var all, n := left + right, |left|;
    assert forall k :: 0 <= k < n ==> all[k] == left[k];
    assert forall k :: n <= k < |all| ==> all[k] == right[k - n];
    BytesBounds(body, left[n - 1].start, left[n - 1].end);
    assert Follows(body, left[n - 1], right[0]);
  }

  lemma {:induction false} TilesOrdered(body: string, lines: seq<Line>, to: nat, i: nat, j: nat)
    requires to <= |body| && Tiles(body, lines, 0, to) && i <= j < |lines|
    ensures lines[i].start <= lines[j].start && lines[i].end <= lines[j].end
    ensures i < j ==> lines[i].end <= lines[j].start
    decreases j - i
  {
    if i < j {
      TilesOrdered(body, lines, to, i, j - 1);
      assert lines[j - 1].end == lines[j].start;
    }
  }

  /** The summed sizes of consecutive lines are the bytes of the text they cover. */
  lemma {:induction false} BytesOfLines(body: string, lines: seq<Line>, to: nat, i: nat, j: nat)
    requires to <= |body| && Tiles(body, lines, 0, to) && i < j <= |lines|
    ensures lines[i].start <= lines[j - 1].end
    ensures W.BytesIn(lines, i, j) == Bytes(body, lines[i].start, lines[j - 1].end)
    decreases j - i
  {
    if i + 1 < j {
      BytesOfLines(body, lines, to, i, j - 1);
      assert lines[j - 2].end == lines[j - 1].start;
    }
  }

  lemma TilesBounded(body: string, lines: seq<Line>, to: nat)
    requires to <= |body| && Tiles(body, lines, 0, to)
    ensures W.Bounded(lines)
  {
    forall k | 0 <= k < |lines|
      ensures lines[k].words <= WINDOW_WORDS && 0 < lines[k].size <= MAX_FRAGMENT_BYTES
    {
      BytesBounds(body, lines[k].start, lines[k].end);
    }
  }

  /** One pair of consecutive windows, measured in the text. */
  lemma PairOfSpans(body: string, lines: seq<Line>, to: nat, a: W.Window, b: W.Window, trail: string)
    requires to <= |body| && Tiles(body, lines, 0, to) && W.Overlaps(lines, a, b)
    ensures Follows(body, SpanOf(lines, a, trail), SpanOf(lines, b, trail))
  {
    TilesOrdered(body, lines, to, a.first, b.first);
    TilesOrdered(body, lines, to, a.last, b.last - 1);
    BytesOfLines(body, lines, to, a.first, a.last);
    assert lines[a.last - 1].end == lines[a.last].start;
    if b.first < a.last {
      BytesOfLines(body, lines, to, b.first, a.last);
    } else {
      BytesBounds(body, lines[a.first].start, lines[a.last - 1].end);
    }
  }

  lemma WindowSpan(body: string, lines: seq<Line>, to: nat, first: nat, last: nat, w: W.Window)
    requires to <= |body| && Tiles(body, lines, 0, to) && first <= w.first < w.last <= last <= |lines|
    ensures lines[first].start <= lines[w.first].start < lines[w.last - 1].end <= lines[last - 1].end <= |body|
    ensures Bytes(body, lines[w.first].start, lines[w.last - 1].end) == W.BytesIn(lines, w.first, w.last)
  {
    TilesOrdered(body, lines, to, first, w.first);
    TilesOrdered(body, lines, to, w.first, w.last - 1);
    TilesOrdered(body, lines, to, w.last - 1, last - 1);
    BytesOfLines(body, lines, to, w.first, w.last);
  }

  lemma WindowsBounds(body: string, lines: seq<Line>, to: nat, ws: seq<W.Window>, first: nat, last: nat, k: nat)
    requires to <= |body| && Tiles(body, lines, 0, to)
    requires first < last <= |lines| && W.Slides(lines, ws, first, last) && k < |ws|
    ensures lines[first].start <= lines[ws[k].first].start < lines[ws[k].last - 1].end <= lines[last - 1].end <= |body|
    ensures Bytes(body, lines[ws[k].first].start, lines[ws[k].last - 1].end) <= MAX_FRAGMENT_BYTES
  {
    WindowSpan(body, lines, to, first, last, ws[k]);
  }

  lemma WindowsFollow(body: string, lines: seq<Line>, to: nat, ws: seq<W.Window>, first: nat, last: nat, trail: string,
                      k: nat)
    requires to <= |body| && Tiles(body, lines, 0, to)
    requires first < last <= |lines| && W.Slides(lines, ws, first, last) && k + 1 < |ws|
    ensures Follows(body, SpanOf(lines, ws[k], trail), SpanOf(lines, ws[k + 1], trail))
  {
    PairOfSpans(body, lines, to, ws[k], ws[k + 1], trail);
  }

  lemma WindowsChain(body: string, lines: seq<Line>, to: nat, ws: seq<W.Window>, first: nat, last: nat, trail: string)
    requires to <= |body| && Tiles(body, lines, 0, to) && |trail| <= S.TRAIL_CHARS
    requires first < last <= |lines| && W.Slides(lines, ws, first, last)
    ensures Chain(body, SpansOf(lines, ws, trail), lines[first].start, lines[last - 1].end)
  {
    hide W.Overlaps, W.BytesIn, W.WordsIn, Tiles, Follows, Prefix;
    var spans := SpansOf(lines, ws, trail);
    forall k {:trigger spans[k]} | 0 <= k < |spans|
      ensures lines[first].start <= spans[k].start < spans[k].end <= lines[last - 1].end <= |body|
      ensures Bytes(body, spans[k].start, spans[k].end) <= MAX_FRAGMENT_BYTES
      ensures spans[k].trail == trail
    {
      WindowsBounds(body, lines, to, ws, first, last, k);
    }
    forall i, j {:trigger spans[i], spans[j]} | 0 <= i < j < |spans| && j == i + 1
      ensures Follows(body, spans[i], spans[j])
    {
      WindowsFollow(body, lines, to, ws, first, last, trail, i);
    }
    assert ws[0].first == first && ws[|ws| - 1].last == last;
  }

  lemma SectionChain(body: string, lines: seq<Line>, to: nat, s: S.Section)
    requires to <= |body| && Tiles(body, lines, 0, to) && W.Bounded(lines)
    requires s.first < s.last <= |lines| && |s.trail| <= S.TRAIL_CHARS
    ensures Chain(body, SectionSpans(lines, s), lines[s.first].start, lines[s.last - 1].end)
  {
    W.SectionWindowsSlide(lines, s.first, s.last);
    WindowsChain(body, lines, to, W.SectionWindows(lines, s.first, s.last), s.first, s.last, s.trail);
  }

  lemma {:induction false} AllChain(body: string, lines: seq<Line>, to: nat, sections: seq<S.Section>, from: nat)
    requires to <= |body| && Tiles(body, lines, 0, to) && W.Bounded(lines)
    requires S.Partition(sections, from, |lines|)
    ensures Chain(body, AllSpans(lines, sections), lines[from].start, to)
  {
    var s, rest := sections[0], sections[1..];
    SectionChain(body, lines, to, s);
    if |sections| == 1 {
      assert AllSpans(lines, sections) == SectionSpans(lines, s) + AllSpans(lines, []);
      assert AllSpans(lines, sections) == SectionSpans(lines, s);
    } else {
      S.PartitionTail(sections, from, |lines|);
      AllChain(body, lines, to, rest, s.last);
      var left, right := SectionSpans(lines, s), AllSpans(lines, rest);
      assert lines[s.last - 1].end == lines[s.last].start;
      ChainAppend(body, left, right, lines[from].start, lines[s.last].start, to);
    }
  }

  // ---- the fragments of a body ----------------------------------------------------------------

  function FragmentAt(body: string, ordinal: nat, span: Span): Fragment
    requires span.start <= span.end <= |body|
  {
    Fragment(ordinal, span.start, span.end, span.trail, body[span.start..span.end])
  }

  /** The lines of a non-empty body: they tile it, and their offsets are places in it. */
  lemma BodyLines(body: string)
    requires body != ""
    ensures var lines := LinesFrom(body, 0);
            && lines != [] && Tiles(body, lines, 0, |body|) && W.Bounded(lines)
            && (forall k :: 0 <= k < |lines| ==> lines[k].start <= lines[k].end <= |body|)
  {
    LinesTile(body, 0);
    TilesBounded(body, LinesFrom(body, 0), |body|);
  }

  /** The merged sections of a body. */
  function BodySections(body: string, source: bool): (sections: seq<S.Section>)
    requires body != ""
    ensures S.Partition(sections, 0, |LinesFrom(body, 0)|)
  {
    BodyLines(body);
    var lines := LinesFrom(body, 0);
    var texts := S.Texts(body, lines);
    S.SectionsPartition(texts, source);
    S.MergedPartition(lines, S.SectionsOf(texts, source));
    S.MergedOf(lines, S.SectionsOf(texts, source))
  }

  function Spans(body: string, source: bool): (spans: seq<Span>)
    ensures body == "" ==> spans == []
    ensures body != "" ==> Chain(body, spans, 0, |body|)
  {
    if body == "" then []
    else
      var lines := LinesFrom(body, 0);
      BodyLines(body);
      if W.WordsIn(lines, 0, |lines|) <= SHORT_PAGE_WORDS && Size(body) <= MAX_FRAGMENT_BYTES
      then [Span(0, |body|, "")]
      else
        AllChain(body, lines, |body|, BodySections(body, source), 0);
        AllSpans(lines, BodySections(body, source))
  }

  function Fragments(body: string, source: bool): (fragments: seq<Fragment>)
    ensures |fragments| == |Spans(body, source)|
  {
    var spans := Spans(body, source);
    seq(|spans|, k requires 0 <= k < |spans| => FragmentAt(body, k, spans[k]))
  }

  method FragmentBody(body: string, source: bool) returns (fragments: seq<Fragment>)
    ensures fragments == Fragments(body, source)
  {
    hide Size, W.WordsIn;
    if body == "" {
      return [];
    }
    var lines := Lines(body);
    BodyLines(body);
    var spans: seq<Span>;
    if W.WordsIn(lines, 0, |lines|) <= SHORT_PAGE_WORDS && Size(body) <= MAX_FRAGMENT_BYTES {
      spans := [Span(0, |body|, "")];
    } else {
      ghost var wanted := BodySections(body, source);
      var texts := S.Texts(body, lines);
      S.SectionsPartition(texts, source);
      var found := S.FindSections(texts, source);
      var sections := S.Merge(lines, found);
      assert sections == wanted;
      AllChain(body, lines, |body|, sections, 0);
      spans := SpanAll(lines, sections);
    }
    fragments := seq(|spans|, k requires 0 <= k < |spans| => FragmentAt(body, k, spans[k]));
  }

  method SpanSection(lines: seq<Line>, s: S.Section) returns (spans: seq<Span>)
    requires s.first < s.last <= |lines| && W.Bounded(lines)
    ensures spans == SectionSpans(lines, s)
  {
    W.SectionWindowsSlide(lines, s.first, s.last);
    var ws := W.Windows(lines, s.first, s.last);
    spans := SpansOf(lines, ws, s.trail);
  }

  method SpanAll(lines: seq<Line>, sections: seq<S.Section>) returns (spans: seq<Span>)
    requires W.Bounded(lines)
    requires forall s :: s in sections ==> s.first < s.last <= |lines|
    ensures spans == AllSpans(lines, sections)
  {
    spans := [];
    var rest := sections;
    ghost var goal := AllSpans(lines, sections);
    while rest != []
      invariant forall s :: s in rest ==> s.first < s.last <= |lines|
      invariant spans + AllSpans(lines, rest) == goal
      decreases |rest|
    {
      var more := SpanSection(lines, rest[0]);
      spans, rest := spans + more, rest[1..];
    }
  }

  // ---- main results -----------------------------------------------------------------------------

  /** Every fragment is an exact slice within the byte bound; the first starts the body and the last
      ends it; each starts strictly after the one before and no later than its end, ends strictly after
      it, and shares with it at most a quarter of its bytes. */
  ghost predicate Covers(body: string, f: seq<Fragment>) {
    && f != [] && f[0].start == 0 && f[|f| - 1].end == |body|
    && (forall k :: 0 <= k < |f| ==>
         && f[k].start < f[k].end <= |body| && f[k].ordinal == k
         && f[k].text == body[f[k].start..f[k].end]
         && Size(f[k].text) == Bytes(body, f[k].start, f[k].end) <= MAX_FRAGMENT_BYTES
         && |f[k].trail| <= S.TRAIL_CHARS)
    && (forall i, j :: 0 <= i < j < |f| && j == i + 1 ==>
         && f[i].start < f[j].start <= f[i].end < f[j].end
         && 4 * Bytes(body, f[j].start, f[i].end) <= Size(f[i].text))
  }

  lemma FragmentsCover(body: string, source: bool)
    requires body != ""
    ensures Covers(body, Fragments(body, source))
  {
    hide Spans, Prefix;
    var spans, f := Spans(body, source), Fragments(body, source);
    forall k | 0 <= k < |f|
      ensures f[k] == FragmentAt(body, k, spans[k]) && f[k].start < f[k].end <= |body|
      ensures Size(f[k].text) == Bytes(body, f[k].start, f[k].end)
    {
      SizeOfSlice(body, spans[k].start, spans[k].end);
    }
    forall i, j | 0 <= i < j < |f| && j == i + 1
      ensures Follows(body, spans[i], spans[j])
    {
    }
  }

  /** The first `n` fragments put back together, each without what it shares with the one before. */
  function Rebuilt(f: seq<Fragment>, n: nat): string
    requires n <= |f|
  {
    if n == 0 then ""
    else if n == 1 then f[0].text
    else
      var shared := f[n - 2].end - f[n - 1].start;
      Rebuilt(f, n - 1) + if 0 <= shared <= |f[n - 1].text| then f[n - 1].text[shared..] else ""
  }

  /** Where two fragments overlap, the second goes on where the first ends. */
  lemma Seam(body: string, a: Fragment, b: Fragment)
    requires a.start <= b.start <= a.end <= b.end <= |body| && b.text == body[b.start..b.end]
    ensures body[..a.end] + b.text[a.end - b.start..] == body[..b.end]
  {
    assert b.text[a.end - b.start..] == body[a.end..b.end];
  }

  lemma {:induction false} RebuiltPrefix(body: string, f: seq<Fragment>, n: nat)
    requires Covers(body, f) && 1 <= n <= |f|
    ensures Rebuilt(f, n) == body[..f[n - 1].end]
  {
    if n > 1 {
      RebuiltPrefix(body, f, n - 1);
      Seam(body, f[n - 2], f[n - 1]);
    }
  }

  /** The fragments reassemble the body. */
  lemma FragmentsReassemble(body: string, source: bool)
    ensures Rebuilt(Fragments(body, source), |Fragments(body, source)|) == body
  {
    if body != "" {
      FragmentsCover(body, source);
      RebuiltPrefix(body, Fragments(body, source), |Fragments(body, source)|);
    }
  }

  /** The bytes of all fragments from `k` on. */
  function TotalBytes(f: seq<Fragment>, k: nat): nat
    requires k <= |f|
    decreases |f| - k
  {
    if k == |f| then 0 else Size(f[k].text) + TotalBytes(f, k + 1)
  }

  lemma {:induction false} OverlapBounded(body: string, f: seq<Fragment>, k: nat)
    requires Covers(body, f) && k < |f|
    ensures 3 * TotalBytes(f, k) <= 4 * Bytes(body, f[k].start, |body|)
    decreases |f| - k
  {
    if k + 1 < |f| {
      OverlapBounded(body, f, k + 1);
    } else {
      assert TotalBytes(f, k + 1) == 0;
    }
  }

  /** Overlap never multiplies a page: all fragments together hold at most 4/3 of its bytes. */
  lemma FragmentsTotal(body: string, source: bool)
    ensures 3 * TotalBytes(Fragments(body, source), 0) <= 4 * Size(body)
  {
    if body != "" {
      FragmentsCover(body, source);
      OverlapBounded(body, Fragments(body, source), 0);
    }
  }

  // ---- the text a fragment is embedded as --------------------------------------------------------

  const TITLE_CHARS := 200
  const WHOLE_SAFE_BYTES := 8000

  function EmbedText(title: string, f: Fragment): string {
    S.Take(title, TITLE_CHARS) + (if f.trail == "" then "" else " › " + f.trail) + "\n" + f.text
  }

  lemma {:induction false} SizeOfConcat(a: string, b: string)
    ensures Size(a + b) == Size(a) + Size(b)
  {
    PrefixOfConcat(a, b, |a|);
    if b == "" {
      assert a + b == a;
    } else {
      var c := b[..|b| - 1];
      SizeOfConcat(a, c);
      assert (a + b)[..|a + b| - 1] == a + c;
      PrefixOfInit(a + b);
      PrefixOfInit(b);
    }
  }

  lemma {:induction false} PrefixOfConcat(a: string, b: string, i: nat)
    requires i <= |a|
    ensures Prefix(a + b, i) == Prefix(a, i)
  {
    if i > 0 { PrefixOfConcat(a, b, i - 1); }
  }

  lemma PrefixOfInit(t: string)
    requires t != ""
    ensures Size(t) == Size(t[..|t| - 1]) + Width(t[|t| - 1])
  {
    var init := t[..|t| - 1];
    PrefixOfConcat(init, [t[|t| - 1]], |init|);
    assert t == init + [t[|t| - 1]];
  }

  /** A cut piece with its title and trail stays within what the embedding model always takes. */
  lemma EmbedTextFits(title: string, body: string, source: bool, k: nat)
    requires k < |Fragments(body, source)|
    ensures Size(EmbedText(title, Fragments(body, source)[k])) <= WHOLE_SAFE_BYTES
  {
    var f := Fragments(body, source)[k];
    assert body != "";
    FragmentsCover(body, source);
    var head, mid := S.Take(title, TITLE_CHARS), if f.trail == "" then "" else " › " + f.trail;
    BytesBounds(head, 0, |head|);
    BytesBounds(mid, 0, |mid|);
    BytesBounds("\n", 0, 1);
    SizeOfConcat(head, mid);
    SizeOfConcat(head + mid, "\n");
    SizeOfConcat(head + mid + "\n", f.text);
  }
}
