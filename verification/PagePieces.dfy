/** The texts a page is embedded as: an entity page whole, any other cut as planned, each under its title and trail. */
module PagePieces {
  import opened Text
  import opened LineCutter
  import opened Fragmenter
  import opened FragmentPlan
  import opened Embedding

  /** A text with the opening of a title, the trail if there is one, and on lines of their own the words. */
  ghost predicate EmbedsAs(title: string, trail: string, words: string, t: string) {
    exists head :: head <= title && |head| == Min(|title|, TITLE_CHARS)
                   && t == head + (if trail == "" then "" else " › " + trail) + "\n" + words
  }

  lemma EmbedTextHolds(title: string, f: Fragment)
    ensures EmbedsAs(title, f.trail, f.text, EmbedText(title, f))
  {
    var head := if |title| <= TITLE_CHARS then title else title[..TITLE_CHARS];
    assert EmbedText(title, f) == head + (if f.trail == "" then "" else " › " + f.trail) + "\n" + f.text;
  }

  /** One piece for each fragment the page is cut into, in order. */
  ghost predicate CutPieces(row: Row, source: bool, pieces: seq<Piece>) {
    exists f: seq<Fragment>, lines: seq<Line> ::
      && CutAsPlanned(row.body, source, f, lines) && |pieces| == |f|
      && forall k :: 0 <= k < |f| ==> EmbedsAs(row.title, f[k].trail, f[k].text, pieces[k].text)
  }

  /** The pieces of one page, in order: none of an empty one; of an entity page not cut, all of it as one; of any
      other, its fragments, cut as a source only if it is one. */
  ghost predicate PagePiecesAre(row: Row, cut: bool, pieces: seq<Piece>) {
    && (forall p :: p in pieces ==> p.path == row.path && p.kind == row.kind)
    && if row.body == "" then pieces == []
       else if row.kind == Entity && !cut then |pieces| == 1 && EmbedsAs(row.title, "", row.body, pieces[0].text)
       else CutPieces(row, row.kind == Source, pieces)
  }

  lemma PiecesOfPage(row: Row, cut: bool)
    ensures PagePiecesAre(row, cut, PageRows(row, cut))
  {
    hide EmbedText, EmbedsAs, CutPieces, Fragments, CutAsPlanned;
    PiecesAre(row, cut);
    if row.body != "" {
      if row.kind == Entity && !cut {
        EmbedTextHolds(row.title, Fragment(0, 0, |row.body|, "", row.body));
      } else {
        PiecesAreCut(row, row.kind == Source, PageRows(row, cut));
      }
    }
  }

  lemma PiecesAre(row: Row, cut: bool)
    ensures var f, pieces := PiecesOf(row, cut), PageRows(row, cut);
            && |pieces| == |f| && (forall p :: p in pieces ==> p.path == row.path && p.kind == row.kind)
            && forall k :: 0 <= k < |f| ==> pieces[k].text == EmbedText(row.title, f[k])
  {
    hide EmbedText, PiecesOf;
  }

  lemma PiecesAreCut(row: Row, source: bool, pieces: seq<Piece>)
    requires row.body != "" && |pieces| == |Fragments(row.body, source)|
    requires forall k :: 0 <= k < |pieces| ==> pieces[k].text == EmbedText(row.title, Fragments(row.body, source)[k])
    ensures CutPieces(row, source, pieces)
  {
    hide EmbedText, EmbedsAs, CutAsPlanned, Fragments;
    var f := Fragments(row.body, source);
    FragmentsPlanned(row.body, source);
    forall k | 0 <= k < |f| ensures EmbedsAs(row.title, f[k].trail, f[k].text, pieces[k].text) {
      EmbedTextHolds(row.title, f[k]);
    }
    assert CutAsPlanned(row.body, source, f, LinesFrom(row.body, 0));
  }

  /** The pieces of all pages are those of each page, page after page. */
  lemma {:induction false} PiecesInOrder(rows: seq<Row>, cut: set<string>, i: nat)
    requires i < |rows|
    ensures PageFragments(rows[..i], cut) + PageRows(rows[i], rows[i].path in cut) <= PageFragments(rows, cut)
    ensures PageFragments([], cut) == []
    ensures i + 1 == |rows| ==>
              PageFragments(rows, cut) == PageFragments(rows[..i], cut) + PageRows(rows[i], rows[i].path in cut)
  {
    hide PageRows;
    var n := |rows| - 1;
    if i < n {
      PiecesInOrder(rows[..n], cut, i);
      assert rows[..n][..i] == rows[..i];
    }
  }
}
