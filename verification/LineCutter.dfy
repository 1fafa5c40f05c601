/** Lines of a body, and the pieces a line longer than a window is cut into. */
module LineCutter {
  import opened Text

  const WINDOW_WORDS := 350
  const OVERLAP_CAP_WORDS := 100
  const MAX_FRAGMENT_BYTES := 4000

  datatype Line = Line(start: nat, end: nat, words: nat, blank: bool, size: nat)

  // ---- one piece: greedy over whole words --------------------------------------------------

  datatype Filled = Filled(stop: nat, count: nat)

  /** The furthest word end, and the words up to it, that a piece from `start` can take whole. */
  function Fill(t: string, start: nat, stop: nat, count: nat): (f: Filled)
    requires start <= stop <= |t|
    ensures stop <= f.stop <= |t|
    decreases |t| - stop
  {
    var word := SkipSpaces(t, stop, |t|);
    if word == |t| then Filled(stop, count)
    else
      var end := WordEnd(t, word, |t|);
      if count == OVERLAP_CAP_WORDS || Bytes(t, start, end) > MAX_FRAGMENT_BYTES then Filled(stop, count)
      else Fill(t, start, end, count + 1)
  }

  /** The furthest end, from `end` on, whose slice from `start` fits in `limit` bytes. */
  function Within(t: string, start: nat, limit: nat, end: nat): (r: nat)
    requires start <= end <= |t| && Bytes(t, start, end) <= limit
    ensures end <= r <= |t| && Bytes(t, start, r) <= limit
    ensures r < |t| ==> Bytes(t, start, r + 1) > limit
    decreases |t| - end
  {
    if end < |t| && Bytes(t, start, end + 1) <= limit then Within(t, start, limit, end + 1) else end
  }

  /** Where the piece from `start` stops before the white space after it is considered. */
  function PieceStop(t: string, start: nat): (stop: nat)
    requires start < |t|
    ensures start < stop <= |t|
  {
    var filled := Fill(t, start, start, 0);
    if filled.stop == start then
      BytesBounds(t, start, start + 1);
      Within(t, start, MAX_FRAGMENT_BYTES, start + 1)
    else filled.stop
  }

  /** The piece ends at the next word, or at its stop when the white space between does not fit. */
  function PieceEnd(t: string, start: nat): (end: nat)
    requires start < |t|
    ensures start < end <= |t|
  {
    var stop := PieceStop(t, start);
    var word := SkipSpaces(t, stop, |t|);
    if Bytes(t, start, word) > MAX_FRAGMENT_BYTES then stop else word
  }

  /** The piece from `start`, at its place in the body. */
  function Piece(t: string, start: nat, offset: nat): Line
    requires start < |t|
  {
    var end := PieceEnd(t, start);
    BytesBounds(t, start, end);
    Line(offset + start, offset + end, Max(1, Fill(t, start, start, 0).count), false, Bytes(t, start, end))
  }

  /** The pieces of a long line from `start`; `offset` is the line's place in the body. */
  function PiecesFrom(t: string, start: nat, offset: nat): (pieces: seq<Line>)
    requires start <= |t|
    decreases |t| - start
  {
    if start == |t| then [] else [Piece(t, start, offset)] + PiecesFrom(t, PieceEnd(t, start), offset)
  }

  lemma {:induction false} FillBounds(t: string, start: nat, stop: nat, count: nat)
    requires start <= stop <= |t| && count <= OVERLAP_CAP_WORDS
    requires Bytes(t, start, stop) <= MAX_FRAGMENT_BYTES
    ensures var f := Fill(t, start, stop, count);
            && count <= f.count <= OVERLAP_CAP_WORDS
            && Bytes(t, start, f.stop) <= MAX_FRAGMENT_BYTES
            && (f.stop == stop <==> f.count == count)
            && (stop < f.stop ==> !IsSpace(t[f.stop - 1]) && (f.stop < |t| ==> IsSpace(t[f.stop])))
    decreases |t| - stop
  {
    var word := SkipSpaces(t, stop, |t|);
    if word < |t| {
      var end := WordEnd(t, word, |t|);
      if count < OVERLAP_CAP_WORDS && Bytes(t, start, end) <= MAX_FRAGMENT_BYTES {
        FillBounds(t, start, end, count + 1);
      }
    }
  }

  /** The count is the number of words taken, wherever in the white space after them one looks. */
  lemma {:induction false} FillCountsWords(t: string, start: nat, stop: nat, count: nat, end: nat)
    requires start <= stop <= |t|
    requires var f := Fill(t, start, stop, count); f.stop <= end <= SkipSpaces(t, f.stop, |t|)
    ensures Words(t, stop, end) == Fill(t, start, stop, count).count - count
    decreases |t| - stop
  {
    var f := Fill(t, start, stop, count);
    if f == Filled(stop, count) {
      SkipIsUnique(t, stop, end, end);
    } else {
      var word := SkipSpaces(t, stop, |t|);
      var next := WordEnd(t, word, |t|);
      FillCountsWords(t, start, next, count + 1, end);
      SkipIsUnique(t, stop, end, word);
      WordEndIsUnique(t, word, end, next);
    }
  }

  /** Greedy: where filling stops, no further word of the line would have fitted. */
  lemma {:induction false} FillIsMaximal(t: string, start: nat, stop: nat, count: nat)
    requires start <= stop <= |t|
    ensures var f := Fill(t, start, stop, count);
            var word := SkipSpaces(t, f.stop, |t|);
            word == |t| || f.count == OVERLAP_CAP_WORDS
            || Bytes(t, start, WordEnd(t, word, |t|)) > MAX_FRAGMENT_BYTES
    decreases |t| - stop
  {
    var word := SkipSpaces(t, stop, |t|);
    if word < |t| {
      var end := WordEnd(t, word, |t|);
      if count != OVERLAP_CAP_WORDS && Bytes(t, start, end) <= MAX_FRAGMENT_BYTES {
        FillIsMaximal(t, start, end, count + 1);
      }
    }
  }

  predicate InsideWord(t: string, i: nat)
    requires i <= |t|
  {
    0 < i < |t| && !IsSpace(t[i - 1]) && !IsSpace(t[i])
  }

  /** A piece that takes no whole word: the first one does not fit. */
  lemma NoWordFits(t: string, start: nat)
    requires start < |t| && Fill(t, start, start, 0).stop == start
    ensures var word := SkipSpaces(t, start, |t|);
            word < |t| ==> Bytes(t, start, WordEnd(t, word, |t|)) > MAX_FRAGMENT_BYTES
  {
    FillBounds(t, start, start, 0);
    FillIsMaximal(t, start, start, 0);
  }

  /** It stops at the byte bound, before the end of that word. */
  lemma BrokenStop(t: string, start: nat)
    requires start < |t| && Fill(t, start, start, 0).stop == start
    ensures var word, stop := SkipSpaces(t, start, |t|), PieceStop(t, start);
            && Bytes(t, start, stop) <= MAX_FRAGMENT_BYTES
            && (stop < |t| ==> Bytes(t, start, stop + 1) > MAX_FRAGMENT_BYTES)
            && (word < |t| ==> stop < WordEnd(t, word, |t|))
            && (word < stop <==> word < |t| && Bytes(t, start, word + 1) <= MAX_FRAGMENT_BYTES)
  {
    NoWordFits(t, start);
    BytesBounds(t, start, start + 1);
    var word, stop := SkipSpaces(t, start, |t|), PieceStop(t, start);
    assert stop == Within(t, start, MAX_FRAGMENT_BYTES, start + 1);
    if word < |t| {
      var wordEnd := WordEnd(t, word, |t|);
      if wordEnd <= stop {
        BytesMonotone(t, start, wordEnd, stop);
        assert false;
      }
      if word < stop {
        BytesMonotone(t, start, word + 1, stop);
      } else {
        BytesMonotone(t, start, stop + 1, word + 1);
      }
    }
  }

  /** It ends there, or in the white space before the word. */
  lemma BrokenRun(t: string, start: nat)
    requires start < |t| && Fill(t, start, start, 0).stop == start
    ensures var word, stop := SkipSpaces(t, start, |t|), PieceStop(t, start);
            && (word < stop ==> PieceEnd(t, start) == stop)
            && (stop <= word ==> stop <= PieceEnd(t, start) <= word)
  {
    BrokenStop(t, start);
    var word, stop := SkipSpaces(t, start, |t|), PieceStop(t, start);
    if word < stop {
      SkipIsUnique(t, stop, |t|, stop);
    } else {
      SkipTwice(t, start, stop);
    }
  }

  /** Exactly when a piece ends inside a word: the white space it opens with and the first word
      together exceed the bound, and the bound falls inside that word. */
  lemma CutInsideWord(t: string, start: nat)
    requires start < |t|
    ensures InsideWord(t, PieceEnd(t, start)) <==>
            var word := SkipSpaces(t, start, |t|);
            && word < |t|
            && Bytes(t, start, WordEnd(t, word, |t|)) > MAX_FRAGMENT_BYTES
            && Bytes(t, start, word + 1) <= MAX_FRAGMENT_BYTES
  {
    if Fill(t, start, start, 0).stop == start {
      BrokenRun(t, start);
      BrokenStop(t, start);
    } else {
      FillBounds(t, start, start, 0);
      FirstWordTaken(t, start);
    }
  }

  lemma BytesMonotone(t: string, i: nat, j: nat, k: nat)
    requires i <= j <= k <= |t|
    ensures Bytes(t, i, j) <= Bytes(t, i, k)
  {
    BytesBounds(t, j, k);
  }

  lemma FirstWordTaken(t: string, start: nat)
    requires start < |t| && Fill(t, start, start, 0).stop != start
    ensures SkipSpaces(t, start, |t|) < |t|
    ensures Bytes(t, start, WordEnd(t, SkipSpaces(t, start, |t|), |t|)) <= MAX_FRAGMENT_BYTES
  {
  }

  /** A piece that opens with a word is cut inside one exactly when that word alone exceeds the bound. */
  lemma CutInsideLongWordOnly(t: string, start: nat)
    requires start < |t| && !IsSpace(t[start])
    ensures InsideWord(t, PieceEnd(t, start)) <==> Bytes(t, start, WordEnd(t, start, |t|)) > MAX_FRAGMENT_BYTES
  {
    CutInsideWord(t, start);
    SkipIsUnique(t, start, |t|, start);
    BytesBounds(t, start, start + 1);
  }

  /** White space before a word breaks that promise: a word that fits in a piece is still cut, whenever its first
      character fits behind the white space and the whole of it does not. */
  lemma CutInsideShortWord(space: string, word: string)
    requires word != "" && (forall k :: 0 <= k < |space| ==> IsSpace(space[k]))
    requires forall k :: 0 <= k < |word| ==> !IsSpace(word[k])
    requires var t := space + word;
             && Bytes(t, 0, |space| + 1) <= MAX_FRAGMENT_BYTES < Bytes(t, 0, |t|)
             && Bytes(t, |space|, |t|) <= MAX_FRAGMENT_BYTES
    ensures var t := space + word;
            && InsideWord(t, PieceEnd(t, 0))
            && SkipSpaces(t, 0, |t|) == |space| && WordEnd(t, |space|, |t|) == |t|
  {
    var t := space + word;
    SkipIsUnique(t, 0, |t|, |space|);
    WordEndIsUnique(t, |space|, |t|, |t|);
    CutInsideWord(t, 0);
  }

  // ---- what a piece promises ---------------------------------------------------------------

  /** A run of lines covers the text from `from` to `to` without gap or overlap, each within the bounds. */
  ghost predicate Tiles(body: string, lines: seq<Line>, from: nat, to: nat)
    requires from <= to <= |body|
  {
    && (lines == [] <==> from == to)
    && (lines != [] ==> lines[0].start == from && lines[|lines| - 1].end == to)
    && (forall k {:trigger lines[k]} :: 0 <= k < |lines| ==>
         && from <= lines[k].start < lines[k].end <= to
         && lines[k].size == Bytes(body, lines[k].start, lines[k].end) <= MAX_FRAGMENT_BYTES
         && lines[k].words <= WINDOW_WORDS)
    && (forall i, j :: 0 <= i < j < |lines| && j == i + 1 ==> lines[i].end == lines[j].start)
  }

  lemma TilesAppend(body: string, left: seq<Line>, right: seq<Line>, from: nat, mid: nat, to: nat)
    requires from <= mid <= to <= |body|
    requires Tiles(body, left, from, mid) && Tiles(body, right, mid, to)
    ensures Tiles(body, left + right, from, to)
  {
    var all := left + right;
    assert forall k :: 0 <= k < |left| ==> all[k] == left[k];
    assert forall k :: |left| <= k < |all| ==> all[k] == right[k - |left|];
  }

  lemma SkipTwice(t: string, stop: nat, end: nat)
    requires stop <= |t| && stop <= end <= SkipSpaces(t, stop, |t|)
    ensures SkipSpaces(t, end, |t|) == SkipSpaces(t, stop, |t|)
  {
    SkipIsUnique(t, end, |t|, SkipSpaces(t, stop, |t|));
  }

  /** A piece is within both bounds, and its word count is the words its text holds. */
  lemma PieceBounds(t: string, start: nat)
    requires start < |t|
    ensures var end := PieceEnd(t, start);
            && Bytes(t, start, end) <= MAX_FRAGMENT_BYTES
            && Max(1, Words(t, start, end)) == Max(1, Fill(t, start, start, 0).count) <= OVERLAP_CAP_WORDS
  {
    FillBounds(t, start, start, 0);
    var stop, end := PieceStop(t, start), PieceEnd(t, start);
    if Fill(t, start, start, 0).stop == start {
      BrokenRun(t, start);
      BrokenStop(t, start);
      WordsBeforeCut(t, start);
    } else {
      FillCountsWords(t, start, start, 0, end);
    }
  }

  /** Both bounds are used up: a piece ends early only at the end of its line, at the word cap, or
      where the next word would not have fitted. */
  lemma PieceIsFull(t: string, start: nat)
    requires start < |t|
    ensures var end := PieceEnd(t, start);
            || end == |t|
            || Fill(t, start, start, 0).count == OVERLAP_CAP_WORDS
            || Bytes(t, start, WordEnd(t, SkipSpaces(t, end, |t|), |t|)) > MAX_FRAGMENT_BYTES
  {
    var filled, end := Fill(t, start, start, 0), PieceEnd(t, start);
    if filled.stop == start {
      BrokenRun(t, start);
      BrokenStop(t, start);
      var word, stop := SkipSpaces(t, start, |t|), PieceStop(t, start);
      if end < |t| {
        if stop <= word { SkipTwice(t, start, end); }
        if word < |t| {
          var reach := WordEnd(t, SkipSpaces(t, end, |t|), |t|);
          BytesMonotone(t, start, stop + 1, reach);
        }
      }
    } else {
      FillIsMaximal(t, start, start, 0);
      SkipTwice(t, filled.stop, end);
      if SkipSpaces(t, filled.stop, |t|) == |t| && end < |t| {
        BytesMonotone(t, start, end, |t|);
      }
    }
  }

  /** A piece that could take no whole word holds at most the opening of one. */
  lemma WordsBeforeCut(t: string, start: nat)
    requires start < |t| && Fill(t, start, start, 0).stop == start
    ensures Words(t, start, PieceEnd(t, start)) <= 1
  {
    BrokenRun(t, start);
    BrokenStop(t, start);
    var word, end := SkipSpaces(t, start, |t|), PieceEnd(t, start);
    if end <= word {
      SkipIsUnique(t, start, end, end);
    } else {
      var wordEnd := WordEnd(t, word, |t|);
      SkipIsUnique(t, start, end, word);
      WordEndIsUnique(t, word, end, end);
      SkipIsUnique(t, end, end, end);
    }
  }

  lemma SliceBytes(t: string, body: string, offset: nat, i: nat, j: nat)
    requires i <= j <= |t| && offset + |t| <= |body| && body[offset..offset + |t|] == t
    ensures Bytes(body, offset + i, offset + j) == Bytes(t, i, j)
  {
    PrefixOfSlice(body, offset, offset + |t|, i);
    PrefixOfSlice(body, offset, offset + |t|, j);
  }

  lemma PieceTiles(t: string, start: nat, body: string, offset: nat)
    requires start < |t| && offset + |t| <= |body| && body[offset..offset + |t|] == t
    ensures Piece(t, start, offset).words <= OVERLAP_CAP_WORDS
    ensures Tiles(body, [Piece(t, start, offset)], offset + start, offset + PieceEnd(t, start))
  {
    hide PieceEnd, Prefix;
    PieceBounds(t, start);
    SliceBytes(t, body, offset, start, PieceEnd(t, start));
  }

  /** The pieces of a long line tile it exactly. */
  lemma {:induction false} PiecesTile(t: string, start: nat, body: string, offset: nat)
    requires start <= |t| && offset + |t| <= |body| && body[offset..offset + |t|] == t
    ensures Tiles(body, PiecesFrom(t, start, offset), offset + start, offset + |t|)
    decreases |t| - start
  {
    if start < |t| {
      var end := PieceEnd(t, start);
      PieceTiles(t, start, body, offset);
      PiecesTile(t, end, body, offset);
      TilesAppend(body, [Piece(t, start, offset)], PiecesFrom(t, end, offset), offset + start, offset + end,
                  offset + |t|);
    }
  }

  /** And each holds no more words than a window may carry over. */
  lemma {:induction false} PiecesCapped(t: string, start: nat, offset: nat)
    requires start <= |t|
    ensures forall p :: p in PiecesFrom(t, start, offset) ==> p.words <= OVERLAP_CAP_WORDS
    decreases |t| - start
  {
    if start < |t| {
      PieceBounds(t, start);
      PiecesCapped(t, PieceEnd(t, start), offset);
    }
  }

  // ---- the scan that stops after 4001 characters ---------------------------------------------

  /** A scan cut off at `reach` decides as the unlimited one: anything past it is over the byte bound. */
  lemma ScanWithinReach(t: string, start: nat, stop: nat, count: nat, reach: nat)
    requires start <= stop <= reach <= |t|
    requires reach == Min(|t|, start + MAX_FRAGMENT_BYTES + 1)
    ensures var word := SkipSpaces(t, stop, reach);
            var full := SkipSpaces(t, stop, |t|);
            && (word < reach ==> full == word)
            && (word == reach ==> Fill(t, start, stop, count) == Filled(stop, count))
            && (word < reach ==>
                 var end, fullEnd := WordEnd(t, word, reach), WordEnd(t, word, |t|);
                 && (Bytes(t, start, end) > MAX_FRAGMENT_BYTES <==> Bytes(t, start, fullEnd) > MAX_FRAGMENT_BYTES)
                 && (Bytes(t, start, end) <= MAX_FRAGMENT_BYTES ==> end == fullEnd))
  {
    var word, full := SkipSpaces(t, stop, reach), SkipSpaces(t, stop, |t|);
    if word < reach {
      SkipIsUnique(t, stop, |t|, word);
      var end, fullEnd := WordEnd(t, word, reach), WordEnd(t, word, |t|);
      if end < reach || reach == |t| {
        WordEndIsUnique(t, word, |t|, end);
      } else {
        BytesBounds(t, start, end);
        if fullEnd < reach { assert false; }
        BytesBounds(t, start, fullEnd);
      }
    } else if full < |t| {
      if full < reach { assert false; }
      BytesBounds(t, start, WordEnd(t, full, |t|));
    }
  }

  lemma ScanStep(t: string, start: nat, stop: nat, count: nat, reach: nat)
    requires start <= stop <= reach <= |t|
    requires reach == Min(|t|, start + MAX_FRAGMENT_BYTES + 1)
    ensures var word := SkipSpaces(t, stop, reach);
            if word == reach then Fill(t, start, stop, count) == Filled(stop, count)
            else
              var end := WordEnd(t, word, reach);
              if count == OVERLAP_CAP_WORDS || Bytes(t, start, end) > MAX_FRAGMENT_BYTES
              then Fill(t, start, stop, count) == Filled(stop, count)
              else Fill(t, start, stop, count) == Fill(t, start, end, count + 1)
  {
    ScanWithinReach(t, start, stop, count, reach);
  }

  /** The white space after a piece, scanned no further than `reach` characters, opens the next
      piece in exactly the same cases. */
  lemma GapWithinReach(t: string, start: nat, stop: nat, reach: nat)
    requires start < stop <= reach <= |t|
    requires reach == Min(|t|, stop + MAX_FRAGMENT_BYTES + 1)
    ensures var word, full := SkipSpaces(t, stop, reach), SkipSpaces(t, stop, |t|);
            && (Bytes(t, start, word) > MAX_FRAGMENT_BYTES <==> Bytes(t, start, full) > MAX_FRAGMENT_BYTES)
            && (Bytes(t, start, word) <= MAX_FRAGMENT_BYTES ==> word == full)
  {
    var word, full := SkipSpaces(t, stop, reach), SkipSpaces(t, stop, |t|);
    if word < reach {
      SkipIsUnique(t, stop, |t|, word);
    } else if reach < |t| {
      if full < reach { assert false; }
      BytesBounds(t, start, word);
      BytesBounds(t, start, full);
    }
  }

  /** One match of the word scan: whether the piece takes the word, and how far it then reaches. */
  method TakeWord(t: string, start: nat, stop: nat, count: nat, size: int, reach: nat)
    returns (taken: bool, end: nat, grown: int)
    requires start <= stop <= reach <= |t| && size == Bytes(t, start, stop)
    requires reach == Min(|t|, start + MAX_FRAGMENT_BYTES + 1)
    ensures taken ==> stop < end <= reach && grown == Bytes(t, start, end)
    ensures Fill(t, start, stop, count)
         == if taken then Fill(t, start, end, count + 1) else Filled(stop, count)
  {
    ScanStep(t, start, stop, count, reach);
    var word := SkipSpaces(t, stop, reach);
    end := WordEnd(t, word, reach);
    grown := size + Bytes(t, stop, end);
    taken := word < reach && count != OVERLAP_CAP_WORDS && grown <= MAX_FRAGMENT_BYTES;
  }

  /** The word scan of one piece. */
  method Scan(t: string, start: nat) returns (stop: nat, count: nat, size: int)
    requires start < |t|
    ensures Filled(stop, count) == Fill(t, start, start, 0)
    ensures start <= stop <= |t| && size == Bytes(t, start, stop)
  {
    var reach := Min(|t|, start + MAX_FRAGMENT_BYTES + 1);
    stop, count, size := start, 0, 0;
    var scanning := true;
    ghost var goal := Fill(t, start, start, 0);
    while scanning
      invariant start <= stop <= reach && size == Bytes(t, start, stop)
      invariant goal == if scanning then Fill(t, start, stop, count) else Filled(stop, count)
      decreases reach - stop, scanning
    {
      var end, grown;
      scanning, end, grown := TakeWord(t, start, stop, count, size, reach);
      if scanning {
        stop, count, size := end, count + 1, grown;
      }
    }
  }

  /** One piece of the cutter's loop. */
  method FindEnd(t: string, start: nat, stop: nat, size: int) returns (end: nat)
    requires start < |t| && stop == PieceStop(t, start) && size == Bytes(t, start, stop)
    ensures end == PieceEnd(t, start)
  {
    var reach := Min(|t|, stop + MAX_FRAGMENT_BYTES + 1);
    GapWithinReach(t, start, stop, reach);
    end := SkipSpaces(t, stop, reach);
    if size + Bytes(t, stop, end) > MAX_FRAGMENT_BYTES {
      end := stop;
    }
  }

  method CutPiece(t: string, start: nat, offset: nat) returns (piece: Line, end: nat)
    requires start < |t|
    ensures piece == Piece(t, start, offset) && end == PieceEnd(t, start)
  {
    var stop, count, size := Scan(t, start);
    BytesBounds(t, start, start + 1);
    if stop == start {
      stop := Within(t, start, MAX_FRAGMENT_BYTES, start + 1);
      size := Bytes(t, start, stop);
    }
    end := FindEnd(t, start, stop, size);
    BytesBounds(t, start, end);
    piece := Line(offset + start, offset + end, Max(1, count), false, Bytes(t, start, end));
  }

  lemma MovesOver(done: seq<Line>, next: Line, rest: seq<Line>)
    ensures done + ([next] + rest) == done + [next] + rest
  {
  }

  /** The cutter, every scan of which stops within 4001 characters: the same pieces as without the limit. */
  method Pieces(t: string, offset: nat) returns (pieces: seq<Line>)
    ensures pieces == PiecesFrom(t, 0, offset)
  {
    pieces := [];
    var start := 0;
    ghost var goal := PiecesFrom(t, 0, offset);
    while start < |t|
      invariant start <= |t|
      invariant pieces + PiecesFrom(t, start, offset) == goal
    {
      var piece, end := CutPiece(t, start, offset);
      MovesOver(pieces, piece, PiecesFrom(t, end, offset));
      pieces := pieces + [piece];
      start := end;
    }
  }

  // ---- every line of a body ----------------------------------------------------------------

  /** One line of the body, as it is or cut. */
  function LinesOf(body: string, from: nat): (lines: seq<Line>)
    requires from < |body|
  {
    var end := LineEnd(body, from);
    var t := body[from..end];
    var words := Words(t, 0, |t|);
    if words <= WINDOW_WORDS && Size(t) <= MAX_FRAGMENT_BYTES then [Line(from, end, words, words == 0, Size(t))]
    else PiecesFrom(t, 0, from)
  }

  function LinesFrom(body: string, from: nat): (lines: seq<Line>)
    requires from <= |body|
    decreases |body| - from
  {
    if from == |body| then [] else LinesOf(body, from) + LinesFrom(body, LineEnd(body, from))
  }

  lemma WholeLineTiles(body: string, from: nat, end: nat, words: nat)
    requires from < end <= |body| && words <= WINDOW_WORDS && Bytes(body, from, end) <= MAX_FRAGMENT_BYTES
    ensures Bytes(body, from, end) >= 0
    ensures Tiles(body, [Line(from, end, words, words == 0, Bytes(body, from, end))], from, end)
  {
    BytesBounds(body, from, end);
  }

  lemma LineTiles(body: string, from: nat)
    requires from < |body|
    ensures Tiles(body, LinesOf(body, from), from, LineEnd(body, from))
  {
    var end := LineEnd(body, from);
    var t := body[from..end];
    SizeOfSlice(body, from, end);
    if Words(t, 0, |t|) <= WINDOW_WORDS && Size(t) <= MAX_FRAGMENT_BYTES {
      WholeLineTiles(body, from, end, Words(t, 0, |t|));
    } else {
      PiecesTile(t, 0, body, from);
    }
  }

  /** The lines of a body, pieces included, tile it within the bounds of a window. */
  lemma {:induction false} LinesTile(body: string, from: nat)
    requires from <= |body|
    ensures Tiles(body, LinesFrom(body, from), from, |body|)
    decreases |body| - from
  {
    if from < |body| {
      var end := LineEnd(body, from);
      LineTiles(body, from);
      LinesTile(body, end);
      TilesAppend(body, LinesOf(body, from), LinesFrom(body, end), from, end, |body|);
    }
  }

  method LinesAt(body: string, from: nat) returns (lines: seq<Line>)
    requires from < |body|
    ensures lines == LinesOf(body, from)
  {
    var end := LineEnd(body, from);
    var raw := body[from..end];
    var words, size := Words(raw, 0, |raw|), Size(raw);
    if words <= WINDOW_WORDS && size <= MAX_FRAGMENT_BYTES {
      lines := [Line(from, end, words, words == 0, size)];
    } else {
      lines := Pieces(raw, from);
    }
  }

  method Lines(body: string) returns (lines: seq<Line>)
    ensures lines == LinesFrom(body, 0)
  {
    lines := [];
    var offset := 0;
    while offset < |body|
      invariant offset <= |body|
      invariant lines + LinesFrom(body, offset) == LinesFrom(body, 0)
    {
      var more := LinesAt(body, offset);
      lines := lines + more;
      offset := LineEnd(body, offset);
    }
  }
}
