/** Sliding windows over the lines of one section. */
module Windows {
  import opened Text
  import opened LineCutter

  const SECTION_MAX_WORDS := 400
  const OVERLAP_WORDS := 50

  /** A window as line indices: `first` included, `last` excluded. */
  datatype Window = Window(first: nat, last: nat)

  function WordsBefore(lines: seq<Line>, i: nat): nat
    requires i <= |lines|
  {
    if i == 0 then 0 else WordsBefore(lines, i - 1) + lines[i - 1].words
  }

  function BytesBefore(lines: seq<Line>, i: nat): nat
    requires i <= |lines|
  {
    if i == 0 then 0 else BytesBefore(lines, i - 1) + lines[i - 1].size
  }

  function WordsIn(lines: seq<Line>, i: nat, j: nat): int
    requires i <= j <= |lines|
  {
    WordsBefore(lines, j) - WordsBefore(lines, i)
  }

  function BytesIn(lines: seq<Line>, i: nat, j: nat): int
    requires i <= j <= |lines|
  {
    BytesBefore(lines, j) - BytesBefore(lines, i)
  }

  lemma {:induction false} SumsAreMonotone(lines: seq<Line>, i: nat, j: nat)
    requires i <= j <= |lines|
    ensures WordsBefore(lines, i) <= WordsBefore(lines, j)
    ensures BytesBefore(lines, i) <= BytesBefore(lines, j)
    decreases j - i
  {
    if i < j { SumsAreMonotone(lines, i, j - 1); }
  }

  /** A line may join the window that starts at `begin`: the first always, any other within the bounds. */
  predicate Joins(lines: seq<Line>, begin: nat, stop: nat)
    requires begin <= stop < |lines|
  {
    stop == begin
    || (WordsIn(lines, begin, stop + 1) <= WINDOW_WORDS && BytesIn(lines, begin, stop + 1) <= MAX_FRAGMENT_BYTES)
  }

  /** The furthest stop reached by adding lines while they join. */
  function Grow(lines: seq<Line>, begin: nat, stop: nat, last: nat): (r: nat)
    requires begin <= stop <= last <= |lines|
    ensures stop <= r <= last
    ensures forall k :: stop <= k < r ==> Joins(lines, begin, k)
    ensures r < last ==> !Joins(lines, begin, r)
    decreases last - stop
  {
    if stop < last && Joins(lines, begin, stop) then Grow(lines, begin, stop + 1, last) else stop
  }

  /** The last blank line in `[from, to)`, or -1. */
  function LastBlank(lines: seq<Line>, from: nat, to: nat): (r: int)
    requires from <= |lines| && to <= |lines|
    ensures r == -1 || (from <= r < to && lines[r].blank)
    ensures forall k :: from <= k < to && r < k ==> !lines[k].blank
  {
    if to <= from then -1
    else if lines[to - 1].blank then to - 1
    else LastBlank(lines, from, to - 1)
  }

  /** The window's exclusive end: at the last paragraph boundary that leaves it six tenths full,
      else as far as the bounds allow. */
  function Stop(lines: seq<Line>, begin: nat, last: nat): (r: nat)
    requires begin < last <= |lines|
    ensures begin < r <= last
  {
    var full := Grow(lines, begin, begin, last);
    assert Joins(lines, begin, begin);
    if full < last then
      var paragraph := LastBlank(lines, begin + 1, full);
      if paragraph >= 0 && 10 * WordsIn(lines, begin, paragraph) >= 6 * WINDOW_WORDS then paragraph + 1 else full
    else full
  }

  /** A line may be carried into the next window: about fifty words, within the cap and within a
      quarter of the window in words and in bytes. */
  predicate Carries(lines: seq<Line>, begin: nat, stop: nat, back: nat)
    requires begin < back <= stop <= |lines|
  {
    && back - 1 > begin
    && WordsIn(lines, back, stop) < OVERLAP_WORDS
    && WordsIn(lines, back - 1, stop) <= Min(OVERLAP_CAP_WORDS, WordsIn(lines, begin, stop) / 4)
    && BytesIn(lines, back - 1, stop) <= BytesIn(lines, begin, stop) / 4
  }

  function Back(lines: seq<Line>, begin: nat, stop: nat, back: nat): (r: nat)
    requires begin < back <= stop <= |lines|
    ensures begin < r <= back
    ensures r == back || Carries(lines, begin, stop, r + 1)
    ensures !Carries(lines, begin, stop, r)
    decreases back
  {
    if Carries(lines, begin, stop, back) then Back(lines, begin, stop, back - 1) else back
  }

  /** Where the next window begins: overlapping only when the next line still fits beside the overlap. */
  function Next(lines: seq<Line>, begin: nat, stop: nat): (r: nat)
    requires begin < stop < |lines|
    ensures begin < r <= stop
  {
    var back := Back(lines, begin, stop, stop);
    if WordsIn(lines, back, stop + 1) > WINDOW_WORDS || BytesIn(lines, back, stop + 1) > MAX_FRAGMENT_BYTES
    then stop else back
  }

  function WindowsFrom(lines: seq<Line>, begin: nat, last: nat): (ws: seq<Window>)
    requires begin < last <= |lines|
    ensures |ws| > 0
    decreases last - begin
  {
    var stop := Stop(lines, begin, last);
    [Window(begin, stop)] + if stop == last then [] else WindowsFrom(lines, Next(lines, begin, stop), last)
  }

  function SectionWindows(lines: seq<Line>, first: nat, last: nat): (ws: seq<Window>)
    requires first < last <= |lines|
  {
    if WordsIn(lines, first, last) <= SECTION_MAX_WORDS && BytesIn(lines, first, last) <= MAX_FRAGMENT_BYTES
    then [Window(first, last)]
    else WindowsFrom(lines, first, last)
  }

  // ---- what the windows promise ----------------------------------------------------------

  ghost predicate Bounded(lines: seq<Line>) {
    forall k :: 0 <= k < |lines| ==> lines[k].words <= WINDOW_WORDS && 0 < lines[k].size <= MAX_FRAGMENT_BYTES
  }

  lemma StopBounds(lines: seq<Line>, begin: nat, last: nat)
    requires begin < last <= |lines| && Bounded(lines)
    ensures WordsIn(lines, begin, Stop(lines, begin, last)) <= WINDOW_WORDS
    ensures BytesIn(lines, begin, Stop(lines, begin, last)) <= MAX_FRAGMENT_BYTES
  {
    var stop, full := Stop(lines, begin, last), Grow(lines, begin, begin, last);
    assert Joins(lines, begin, stop - 1);
  }

  /** Exactly where a window that is not the last one ends: after the last blank line that leaves it six
      tenths full, and only when there is none, where the next line no longer fits. */
  lemma StopIsBest(lines: seq<Line>, begin: nat, last: nat)
    requires begin < last <= |lines| && Stop(lines, begin, last) < last
    ensures var stop := Stop(lines, begin, last);
            var full := Grow(lines, begin, begin, last);
            && stop <= full
            && (forall k :: begin < k < full && lines[k].blank && 10 * WordsIn(lines, begin, k) >= 6 * WINDOW_WORDS ==>
                 k < stop && lines[stop - 1].blank)
            && ((full < last && !Joins(lines, begin, stop))
                || (lines[stop - 1].blank && 10 * WordsIn(lines, begin, stop - 1) >= 6 * WINDOW_WORDS))
  {
    var full := Grow(lines, begin, begin, last);
    var paragraph := LastBlank(lines, begin + 1, full);
    forall k | begin < k < full && lines[k].blank && 10 * WordsIn(lines, begin, k) >= 6 * WINDOW_WORDS
      ensures k <= paragraph && 10 * WordsIn(lines, begin, paragraph) >= 6 * WINDOW_WORDS
    {
      SumsAreMonotone(lines, k, paragraph);
    }
  }

  /** How far before its end window `a` lends lines to the next one: to line `m`, lending at most a hundred words
      and a quarter of its words and bytes, fifty words only with the first of the lines lent, and all it may. */
  ghost predicate Lends(lines: seq<Line>, a: Window, m: nat)
    requires a.last <= |lines|
  {
    && a.first < m <= a.last && MayLend(lines, a, m)
    && (m < a.last ==> WordsIn(lines, m + 1, a.last) < OVERLAP_WORDS)
    && (m - 1 == a.first || WordsIn(lines, m, a.last) >= OVERLAP_WORDS || !MayLend(lines, a, m - 1))
  }

  ghost predicate MayLend(lines: seq<Line>, a: Window, m: nat)
    requires a.first <= m <= a.last <= |lines|
  {
    && WordsIn(lines, m, a.last) <= OVERLAP_CAP_WORDS
    && 4 * WordsIn(lines, m, a.last) <= WordsIn(lines, a.first, a.last)
    && 4 * BytesIn(lines, m, a.last) <= BytesIn(lines, a.first, a.last)
  }

  /** What a window lends is determined by the window. */
  lemma LendsOnce(lines: seq<Line>, a: Window, m: nat, k: nat)
    requires a.last <= |lines| && Lends(lines, a, m) && Lends(lines, a, k)
    ensures m == k
  {
    if m < k {
      SumsAreMonotone(lines, m, k - 1);
      SumsAreMonotone(lines, m + 1, k);
    } else if k < m {
      SumsAreMonotone(lines, k, m - 1);
      SumsAreMonotone(lines, k + 1, m);
    }
  }

  /** The next window opens with all `a` lends where one more line fits beside it, and else with nothing. */
  ghost predicate Opens(lines: seq<Line>, a: Window, first: nat)
    requires a.last < |lines|
  {
    exists m: nat :: Lends(lines, a, m)
      && var fits := WordsIn(lines, m, a.last + 1) <= WINDOW_WORDS
                     && BytesIn(lines, m, a.last + 1) <= MAX_FRAGMENT_BYTES;
         first == if fits then m else a.last
  }

  lemma {:induction false} BackLends(lines: seq<Line>, begin: nat, stop: nat, back: nat)
    requires begin < back <= stop <= |lines| && MayLend(lines, Window(begin, stop), back)
    requires back < stop ==> WordsIn(lines, back + 1, stop) < OVERLAP_WORDS
    ensures Lends(lines, Window(begin, stop), Back(lines, begin, stop, back))
    decreases back
  {
    if Carries(lines, begin, stop, back) { BackLends(lines, begin, stop, back - 1); }
  }

  lemma NextOpens(lines: seq<Line>, begin: nat, stop: nat)
    requires begin < stop < |lines|
    ensures Opens(lines, Window(begin, stop), Next(lines, begin, stop))
  {
    SumsAreMonotone(lines, begin, stop);
    BackLends(lines, begin, stop, stop);
  }

  /** The lines from `begin` up to `full` fit in a window, and no more of those before `last` do. */
  ghost predicate Fills(lines: seq<Line>, begin: nat, full: nat, last: nat)
    requires begin <= full <= last <= |lines|
  {
    && begin < full && WordsIn(lines, begin, full) <= WINDOW_WORDS && BytesIn(lines, begin, full) <= MAX_FRAGMENT_BYTES
    && (full < last ==> WordsIn(lines, begin, full + 1) > WINDOW_WORDS
                        || BytesIn(lines, begin, full + 1) > MAX_FRAGMENT_BYTES)
  }

  /** A paragraph ends before the blank line `p` and leaves the window from `begin` six tenths full. */
  ghost predicate Boundary(lines: seq<Line>, begin: nat, p: nat)
    requires begin <= p < |lines|
  {
    begin < p && lines[p].blank && 10 * WordsIn(lines, begin, p) >= 6 * WINDOW_WORDS
  }

  /** Where a window ends: with the section if all of it fits; else after the last such boundary in what fits, or
      with what fits if there is none. */
  ghost predicate EndsWell(lines: seq<Line>, w: Window, last: nat)
    requires w.first < w.last <= last <= |lines|
  {
    exists full: nat :: w.first < full <= last && Fills(lines, w.first, full, last)
      && if full == last then w.last == last
         else
           && w.last <= full
           && (forall p :: w.last <= p < full ==> !Boundary(lines, w.first, p))
           && (Boundary(lines, w.first, w.last - 1) || w.last == full)
  }

  lemma StopEndsWell(lines: seq<Line>, begin: nat, last: nat)
    requires begin < last <= |lines| && Bounded(lines)
    ensures EndsWell(lines, Window(begin, Stop(lines, begin, last)), last)
  {
    var stop, full := Stop(lines, begin, last), Grow(lines, begin, begin, last);
    assert Joins(lines, begin, full - 1);
    assert Fills(lines, begin, full, last);
    if full < last {
      StopIsBestOrFull(lines, begin, last);
    }
  }

  lemma StopIsBestOrFull(lines: seq<Line>, begin: nat, last: nat)
    requires begin < last <= |lines| && Grow(lines, begin, begin, last) < last
    ensures var stop, full := Stop(lines, begin, last), Grow(lines, begin, begin, last);
            && stop <= full && (forall p :: stop <= p < full ==> !Boundary(lines, begin, p))
            && (Boundary(lines, begin, stop - 1) || stop == full)
  {
    var full := Grow(lines, begin, begin, last);
    var paragraph := LastBlank(lines, begin + 1, full);
    forall p | begin < p < full && Boundary(lines, begin, p)
        ensures p <= paragraph && Boundary(lines, begin, paragraph) {
      SumsAreMonotone(lines, p, paragraph);
    }
  }

  /** The words and bytes two consecutive windows share, and the advance of the second one's end. */
  lemma NextAdvances(lines: seq<Line>, begin: nat, last: nat)
    requires begin < last <= |lines| && Bounded(lines)
    requires Stop(lines, begin, last) < last
    ensures var stop := Stop(lines, begin, last);
            var next := Next(lines, begin, stop);
            && stop < Stop(lines, next, last)
            && 4 * BytesIn(lines, next, stop) <= BytesIn(lines, begin, stop)
            && 4 * WordsIn(lines, next, stop) <= WordsIn(lines, begin, stop)
            && WordsIn(lines, next, stop) <= OVERLAP_CAP_WORDS
  {
    hide Lends, Opens, EndsWell;
    var stop := Stop(lines, begin, last);
    var back, next := Back(lines, begin, stop, stop), Next(lines, begin, stop);
    SumsAreMonotone(lines, begin, stop);
    if next < stop {
      assert Carries(lines, begin, stop, next + 1);
      var full := Grow(lines, next, next, last);
      assert stop < full by {
        if full <= stop {
          SumsAreMonotone(lines, full + 1, stop + 1);
          assert false;
        }
      }
      var paragraph := LastBlank(lines, next + 1, full);
      if 0 <= paragraph < stop { SumsAreMonotone(lines, paragraph, stop); }
    }
  }

  /** Window `b` follows `a`: it starts inside `a` or at its end, ends strictly after it, and shares
      with it at most a hundred words and a quarter of its words and bytes, and as much as that allows. */
  ghost predicate Overlaps(lines: seq<Line>, a: Window, b: Window) {
    && a.first < b.first <= a.last < b.last <= |lines| && Opens(lines, a, b.first)
    && 4 * BytesIn(lines, b.first, a.last) <= BytesIn(lines, a.first, a.last)
    && 4 * WordsIn(lines, b.first, a.last) <= WordsIn(lines, a.first, a.last)
    && WordsIn(lines, b.first, a.last) <= OVERLAP_CAP_WORDS
  }

  /** The windows of a section, as spans over its lines: they start and end with the section,
      each fits the bounds, and each follows the one before it. */
  ghost predicate Slides(lines: seq<Line>, ws: seq<Window>, first: nat, last: nat)
    requires first < last <= |lines|
  {
    && ws != [] && ws[0].first == first && ws[|ws| - 1].last == last
    && (forall k {:trigger ws[k]} :: 0 <= k < |ws| ==>
         && first <= ws[k].first < ws[k].last <= last
         && BytesIn(lines, ws[k].first, ws[k].last) <= MAX_FRAGMENT_BYTES
         && WordsIn(lines, ws[k].first, ws[k].last) <= SECTION_MAX_WORDS)
    && (forall i, j {:trigger ws[i], ws[j]} :: 0 <= i < j < |ws| && j == i + 1 ==> Overlaps(lines, ws[i], ws[j]))
  }

  /** A window in front of windows that follow it. */
  lemma SlidesMore(lines: seq<Line>, w: Window, rest: seq<Window>, first: nat, next: nat, last: nat)
    requires first <= next < last <= |lines| && Slides(lines, rest, next, last)
    requires w.first == first < w.last <= last && Overlaps(lines, w, rest[0])
    requires BytesIn(lines, w.first, w.last) <= MAX_FRAGMENT_BYTES
             && WordsIn(lines, w.first, w.last) <= SECTION_MAX_WORDS
    ensures Slides(lines, [w] + rest, first, last)
  {
    hide Overlaps, BytesIn, WordsIn;
  }

  lemma {:induction false} WindowsSlide(lines: seq<Line>, begin: nat, last: nat)
    requires begin < last <= |lines| && Bounded(lines)
    ensures Slides(lines, WindowsFrom(lines, begin, last), begin, last)
    ensures WindowsFrom(lines, begin, last)[0] == Window(begin, Stop(lines, begin, last))
    decreases last - begin
  {
    hide Stop, Next, BytesIn, WordsIn, Bounded, Opens;
    var stop := Stop(lines, begin, last);
    StopBounds(lines, begin, last);
    if stop < last {
      var next := Next(lines, begin, stop);
      NextAdvances(lines, begin, last);
      NextOpens(lines, begin, stop);
      WindowsSlide(lines, next, last);
      SlidesMore(lines, Window(begin, stop), WindowsFrom(lines, next, last), begin, next, last);
    }
  }

  /** Every window ends where it should. */
  ghost predicate AllEndWell(lines: seq<Line>, ws: seq<Window>, last: nat)
    requires last <= |lines|
  {
    forall w :: w in ws ==> w.first < w.last <= last && EndsWell(lines, w, last)
  }

  lemma {:induction false} WindowsEndWell(lines: seq<Line>, begin: nat, last: nat)
    requires begin < last <= |lines| && Bounded(lines)
    ensures AllEndWell(lines, WindowsFrom(lines, begin, last), last)
    decreases last - begin
  {
    hide Stop, Next, EndsWell;
    var stop := Stop(lines, begin, last);
    StopEndsWell(lines, begin, last);
    if stop < last { WindowsEndWell(lines, Next(lines, begin, stop), last); }
  }

  predicate FitsWhole(lines: seq<Line>, first: nat, last: nat)
    requires first <= last <= |lines|
  {
    WordsIn(lines, first, last) <= SECTION_MAX_WORDS && BytesIn(lines, first, last) <= MAX_FRAGMENT_BYTES
  }

  /** A section that fits is one window; of any other, each window ends where it should, and opens with as much of
      the one before as it may. */
  lemma SectionWindowsSlide(lines: seq<Line>, first: nat, last: nat)
    requires first < last <= |lines| && Bounded(lines)
    ensures Slides(lines, SectionWindows(lines, first, last), first, last)
    ensures var ws := SectionWindows(lines, first, last);
            if FitsWhole(lines, first, last) then ws == [Window(first, last)] else AllEndWell(lines, ws, last)
  {
    WindowsSlide(lines, first, last);
    WindowsEndWell(lines, first, last);
  }

  // ---- the window loop --------------------------------------------------------------------

  /** Byte offsets of the section's lines: `Cumulative[k]` bytes lie before line `first + k`. */
  method Accumulate(lines: seq<Line>, first: nat, last: nat) returns (cumulative: seq<int>)
    requires first <= last <= |lines|
    ensures |cumulative| == last - first + 1
    ensures forall k :: 0 <= k <= last - first ==> cumulative[k] == BytesIn(lines, first, first + k)
  {
    cumulative := [0];
    var i := first;
    while i < last
      invariant first <= i <= last && |cumulative| == i - first + 1
      invariant forall k :: 0 <= k <= i - first ==> cumulative[k] == BytesIn(lines, first, first + k)
    {
      cumulative := cumulative + [cumulative[i - first] + lines[i].size];
      i := i + 1;
    }
  }

  method GrowWindow(lines: seq<Line>, cumulative: seq<int>, first: nat, begin: nat, last: nat)
    returns (stop: nat, words: int)
    requires first <= begin < last <= |lines| && |cumulative| == last - first + 1
    requires forall k :: 0 <= k <= last - first ==> cumulative[k] == BytesIn(lines, first, first + k)
    ensures stop == Stop(lines, begin, last) && words == WordsIn(lines, begin, stop)
  {
    stop, words := begin, 0;
    while stop < last && (stop == begin
                          || (words + lines[stop].words <= WINDOW_WORDS
                              && cumulative[stop + 1 - first] - cumulative[begin - first] <= MAX_FRAGMENT_BYTES))
      invariant begin <= stop <= last && words == WordsIn(lines, begin, stop)
      invariant Grow(lines, begin, stop, last) == Grow(lines, begin, begin, last)
    {
      words := words + lines[stop].words;
      stop := stop + 1;
    }
    assert stop == Grow(lines, begin, begin, last);
    if stop < last {
      var paragraph := LastBlank(lines, begin + 1, stop);
      if paragraph >= 0 && 10 * WordsIn(lines, begin, paragraph) >= 6 * WINDOW_WORDS {
        stop := paragraph + 1;
        words := WordsIn(lines, begin, stop);
      }
    }
  }

  method StepBack(lines: seq<Line>, cumulative: seq<int>, first: nat, begin: nat, stop: nat, words: int)
    returns (next: nat)
    requires first <= begin < stop < |lines| && stop - first + 1 < |cumulative| <= |lines| - first + 1
    requires forall k :: 0 <= k < |cumulative| ==> cumulative[k] == BytesIn(lines, first, first + k)
    requires words == WordsIn(lines, begin, stop)
    ensures next == Next(lines, begin, stop)
  {
    var wordRoom := Min(OVERLAP_CAP_WORDS, words / 4);
    var byteRoom := (cumulative[stop - first] - cumulative[begin - first]) / 4;
    var back, carried := stop, 0;
    while back - 1 > begin && carried < OVERLAP_WORDS && carried + lines[back - 1].words <= wordRoom
          && cumulative[stop - first] - cumulative[back - 1 - first] <= byteRoom
      invariant begin < back <= stop && carried == WordsIn(lines, back, stop)
      invariant Back(lines, begin, stop, back) == Back(lines, begin, stop, stop)
    {
      back := back - 1;
      carried := carried + lines[back].words;
    }
    if carried + lines[stop].words > WINDOW_WORDS
       || cumulative[stop + 1 - first] - cumulative[back - first] > MAX_FRAGMENT_BYTES {
      back := stop;
    }
    next := back;
  }

  lemma OneOver(done: seq<Window>, w: Window, rest: seq<Window>)
    requires rest != [] && rest[0] == w
    ensures done + rest == done + [w] + rest[1..]
  {
  }

  method Windows(lines: seq<Line>, first: nat, last: nat) returns (ws: seq<Window>)
    requires first < last <= |lines|
    ensures ws == SectionWindows(lines, first, last)
  {
    var cumulative := Accumulate(lines, first, last);
    if WordsIn(lines, first, last) <= SECTION_MAX_WORDS && cumulative[last - first] <= MAX_FRAGMENT_BYTES {
      return [Window(first, last)];
    }
    ws := [];
    var begin := first;
    ghost var goal, rest := WindowsFrom(lines, first, last), WindowsFrom(lines, first, last);
    while begin < last
      invariant first <= begin < last && rest == WindowsFrom(lines, begin, last)
      invariant goal == ws + rest
      decreases last - begin
    {
      var stop, words := GrowWindow(lines, cumulative, first, begin, last);
      OneOver(ws, Window(begin, stop), rest);
      ws := ws + [Window(begin, stop)];
      rest := rest[1..];
      if stop >= last {
        break;
      }
      begin := StepBack(lines, cumulative, first, begin, stop, words);
    }
  }
}
