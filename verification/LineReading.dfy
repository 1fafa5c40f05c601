/** What the lines of a body are: its own lines, each one too long for a window cut into full pieces. */
module LineReading {
  import opened Text
  import opened LineCutter

  // ---- the lines of the text --------------------------------------------------------------------------

  /** A line ends between the characters before and at `p`. */
  predicate Breaks(t: string, p: nat) {
    0 < p < |t| && IsBreak(t[p - 1]) && !(t[p - 1] == '\r' && t[p] == '\n')
  }

  /** From `i` to `j` is one line of the text, its line break included. */
  ghost predicate RawLine(t: string, i: nat, j: nat) {
    && i < j <= |t| && (i == 0 || Breaks(t, i)) && (j == |t| || Breaks(t, j))
    && forall p :: i < p < j ==> !Breaks(t, p)
  }

  lemma {:induction false} LineEndBreaks(t: string, from: nat)
    requires from < |t|
    ensures var r := LineEnd(t, from);
            (r == |t| || Breaks(t, r)) && forall p :: from < p < r ==> !Breaks(t, p)
    decreases |t| - from
  {
    if !(t[from] == '\r' && from + 1 < |t| && t[from + 1] == '\n') && !IsBreak(t[from]) && from + 1 < |t| {
      LineEndBreaks(t, from + 1);
    }
  }

  // ---- what is made of one of them ----------------------------------------------------------------------

  /** A piece of the long line `t` is cut off only where the next word cannot be had with it: at the word cap, or
      where that word, or the white space before it, passes the byte bound; inside a word only where that is the
      first and too long, and then at the byte bound. */
  predicate CutWhereFull(t: string, start: nat, end: nat, words: nat)
    requires start < end <= |t|
  {
    var next := SkipSpaces(t, end, |t|);
    && (end == |t| || words == OVERLAP_CAP_WORDS || Bytes(t, start, WordEnd(t, next, |t|)) > MAX_FRAGMENT_BYTES)
    && (end == next || Bytes(t, start, next) > MAX_FRAGMENT_BYTES)
    && (InsideWord(t, end) ==>
          && Bytes(t, start, WordEnd(t, SkipSpaces(t, start, |t|), |t|)) > MAX_FRAGMENT_BYTES
          && Bytes(t, start, end + 1) > MAX_FRAGMENT_BYTES)
  }

  predicate FitsWindow(t: string) { Words(t, 0, |t|) <= WINDOW_WORDS && Size(t) <= MAX_FRAGMENT_BYTES }

  /** A line of the text that fits in a window stands as it is, with the words it holds; of any other this is a
      piece, blank never. */
  ghost predicate MadeOf(body: string, line: Line, i: nat, j: nat)
    requires i < j <= |body|
  {
    var t := body[i..j];
    if FitsWindow(t) then line == Line(i, j, Words(t, 0, |t|), Words(t, 0, |t|) == 0, Size(t))
    else
      && i <= line.start < line.end <= j && !line.blank
      && line.words == Max(1, Words(t, line.start - i, line.end - i))
      && CutWhereFull(t, line.start - i, line.end - i, line.words)
  }

  /** Every line is made of a line of the text. */
  ghost predicate LineReads(body: string, line: Line) {
    exists i: nat, j: nat :: RawLine(body, i, j) && MadeOf(body, line, i, j)
  }

  lemma PieceCut(t: string, start: nat)
    requires start < |t|
    ensures CutWhereFull(t, start, PieceEnd(t, start), Max(1, Fill(t, start, start, 0).count))
  {
    hide Words, Fill, PieceStop;
    PieceIsFull(t, start);
    PieceBounds(t, start);
    PieceGap(t, start);
    if InsideWord(t, PieceEnd(t, start)) { PieceInside(t, start); }
  }

  lemma PieceInside(t: string, start: nat)
    requires start < |t| && InsideWord(t, PieceEnd(t, start))
    ensures Bytes(t, start, WordEnd(t, SkipSpaces(t, start, |t|), |t|)) > MAX_FRAGMENT_BYTES
    ensures Bytes(t, start, PieceEnd(t, start) + 1) > MAX_FRAGMENT_BYTES
  {
    CutInsideWord(t, start);
    if Fill(t, start, start, 0).stop != start {
      FirstWordTaken(t, start);
      assert false;
    }
    BrokenRun(t, start);
    BrokenStop(t, start);
  }

  /** The white space after a piece is left to the next only when it does not fit. */
  lemma PieceGap(t: string, start: nat)
    requires start < |t|
    ensures var end := PieceEnd(t, start);
            var next := SkipSpaces(t, end, |t|);
            end == next || Bytes(t, start, next) > MAX_FRAGMENT_BYTES
  {
    hide Fill, PieceStop;
    var stop := PieceStop(t, start);
    SkipTwice(t, stop, SkipSpaces(t, stop, |t|));
  }

  lemma {:induction false} PiecesRead(body: string, i: nat, j: nat, start: nat)
    requires i < j <= |body| && start <= j - i && !FitsWindow(body[i..j])
    ensures forall p :: p in PiecesFrom(body[i..j], start, i) ==> MadeOf(body, p, i, j)
    decreases j - i - start
  {
    hide FitsWindow, CutWhereFull, Words, Fill;
    var t := body[i..j];
    if start < |t| {
      PieceBounds(t, start);
      PieceCut(t, start);
      PiecesRead(body, i, j, PieceEnd(t, start));
      assert MadeOf(body, Piece(t, start, i), i, j);
    }
  }

  lemma LineOfReads(body: string, from: nat)
    requires from < |body|
    ensures forall line :: line in LinesOf(body, from) ==> MadeOf(body, line, from, LineEnd(body, from))
  {
    hide Words, Size;
    var end := LineEnd(body, from);
    if !FitsWindow(body[from..end]) { PiecesRead(body, from, end, 0); }
  }

  lemma {:induction false} LinesReadFrom(body: string, from: nat)
    requires from <= |body| && (from == 0 || from == |body| || Breaks(body, from))
    ensures forall line :: line in LinesFrom(body, from) ==> LineReads(body, line)
    decreases |body| - from
  {
    hide MadeOf, LinesOf;
    if from < |body| {
      var end := LineEnd(body, from);
      LineEndBreaks(body, from);
      assert RawLine(body, from, end);
      LineOfReads(body, from);
      LinesReadFrom(body, end);
    }
  }

  /** The lines of a body tile it, and each is a line of the text, or, only where that is too long for a window,
      a piece of it as long as the bounds allow. */
  lemma LinesRead(body: string)
    ensures Tiles(body, LinesFrom(body, 0), 0, |body|)
    ensures forall line :: line in LinesFrom(body, 0) ==> LineReads(body, line)
  {
    LinesTile(body, 0);
    LinesReadFrom(body, 0);
  }
}
