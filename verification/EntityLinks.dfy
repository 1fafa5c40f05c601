/** What a merge or a rename does to every page of the wiki, segment by segment. */
module EntityLinks {
  import opened Options
  import opened Text
  import opened EntityGraph
  import opened EntityPages
  import opened EntityFacts

  // ---- one segment --------------------------------------------------------------------------------------

  /** What the rewrite reads off the link is the stem of one of those pages, and not already the new one. */
  ghost predicate NamesMoved(n: Names, moved: seq<Path>, stem: string, link: Link) {
    Cleaned(link) != stem && exists p :: p in moved && n.fold(p.stem) == n.fold(Cleaned(link))
  }

  /** A link after pages moved to a stem: the same, unless it names one of them; then under the new stem, with its
      mark of embedding, its anchor and its label, or the name it had as its label. */
  ghost predicate LinkFollows(n: Names, moved: seq<Path>, stem: string, was: Link, now: Link) {
    if NamesMoved(n, moved, stem, was)
    then now == Link(was.embed, stem, was.mark, was.anchor, true, if was.labelled then was.caption else Cleaned(was))
    else now == was
  }

  /** Prose stays as it is, and a link follows. */
  ghost predicate SegmentFollows(n: Names, moved: seq<Path>, stem: string, was: Segment, now: Segment) {
    match was
    case Prose(_) => now == was
    case Wikilink(link) => now.Wikilink? && LinkFollows(n, moved, stem, link, now.link)
  }

  ghost predicate BodyFollows(n: Names, moved: seq<Path>, stem: string, was: Body, now: Body) {
    |now| == |was| && forall k :: 0 <= k < |was| ==> SegmentFollows(n, moved, stem, was[k], now[k])
  }

  lemma RewriteFollows(n: Names, moved: seq<Path>, stem: string, link: Link)
    ensures LinkFollows(n, moved, stem, link, RewriteLink(n, Moved(n, moved, stem), link))
  {
    hide Cleaned;
    MovedIs(n, moved, stem, n.fold(Cleaned(link)));
  }

  lemma BodyIsFollowed(n: Names, moved: seq<Path>, stem: string, body: Body)
    ensures BodyFollows(n, moved, stem, body, RewriteBody(n, Moved(n, moved, stem), body))
  {
    hide LinkFollows, RewriteLink, Moved;
    forall k | 0 <= k < |body|
      ensures SegmentFollows(n, moved, stem, body[k], RewriteBody(n, Moved(n, moved, stem), body)[k])
    {
      if body[k].Wikilink? { RewriteFollows(n, moved, stem, body[k].link); }
    }
  }

  // ---- the text of the survivor ---------------------------------------------------------------------------

  function LettersOf(t: string): seq<Segment> {
    if t == "" then [] else LettersOf(t[..|t| - 1]) + if IsSpace(t[|t| - 1]) then [] else [Prose([t[|t| - 1]])]
  }

  /** All of a text but its white space: its letters one by one, and its links. */
  function Letters(body: Body): seq<Segment> {
    if body == [] then []
    else
      var n := |body| - 1;
      Letters(body[..n]) + match body[n] case Prose(t) => LettersOf(t) case Wikilink(_) => [body[n]]
  }

  /** Trimming takes nothing but white space away. */
  ghost predicate TrimsSpace(n: Names) { forall body :: Letters(n.trim(body)) == Letters(body) }

  lemma {:induction false} LettersAppend(a: Body, b: Body)
    ensures Letters(a + b) == Letters(a) + Letters(b)
  {
    hide LettersOf;
    if b == [] {
      assert a + b == a;
    } else {
      var n := |b| - 1;
      LettersAppend(a, b[..n]);
      assert (a + b)[..|a + b| - 1] == a + b[..n] && (a + b)[|a + b| - 1] == b[n];
      var last := match b[n] case Prose(t) => LettersOf(t) case Wikilink(_) => [b[n]];
      assert Letters(a + b) == Letters(a + b[..n]) + last && Letters(b) == Letters(b[..n]) + last;
    }
  }

  lemma {:induction false} NoLinks(t: string)
    ensures forall s :: s in LettersOf(t) ==> s.Prose?
  {
    if t != "" { NoLinks(t[..|t| - 1]); }
  }

  lemma {:induction false} LinksAreLetters(body: Body, link: Link)
    ensures Wikilink(link) in Letters(body) <==> Wikilink(link) in body
  {
    if body != [] {
      var n := |body| - 1;
      LinksAreLetters(body[..n], link);
      assert body == body[..n] + [body[n]];
      if body[n].Prose? { NoLinks(body[n].text); }
    }
  }

  /** The heading each folded page leaves, and its text, page after page. */
  function Former(n: Names, w: Wiki, paths: seq<Path>): seq<Segment>
    requires forall p :: p in paths ==> p in w
  {
    if paths == [] then []
    else
      var page := w[paths[|paths| - 1]];
      Former(n, w, paths[..|paths| - 1]) + LettersOf("\n\n## Formerly " + page.title + "\n\n")
        + Letters(n.tail(page.body))
  }

  /** The survivor's text: its own, and that of every folded page under its heading, all but white space; its title,
      type, and visibility are its own, and its sources are those of all. */
  lemma {:induction false} FoldKeepsText(n: Names, w: Wiki, into: Page, paths: seq<Path>)
    requires TrimsSpace(n) && forall p :: p in paths ==> p in w
    ensures var page := FoldAll(n, w, into, paths);
            && Letters(page.body) == Letters(into.body) + Former(n, w, paths)
            && page.title == into.title && page.kind == into.kind && page.acl == into.acl
            && (forall s :: s in page.sources <==> s in into.sources || exists p :: p in paths && s in w[p].sources)
  {
    hide LettersOf, Letters, MoreAliases;
    if paths != [] {
      var last := |paths| - 1;
      FoldKeepsText(n, w, into, paths[..last]);
      assert paths == paths[..last] + [paths[last]];
      var before, page := FoldAll(n, w, into, paths[..last]), w[paths[last]];
      FoldedLetters(n, before, page);
      Regrouped(Letters(into.body), Former(n, w, paths[..last]), LettersOf("\n\n## Formerly " + page.title + "\n\n"),
                Letters(n.tail(page.body)));
    }
  }

  lemma Regrouped(a: seq<Segment>, b: seq<Segment>, c: seq<Segment>, d: seq<Segment>)
    ensures a + b + (c + d) == a + (b + c + d)
  {
  }

  lemma FoldedLetters(n: Names, into: Page, page: Page)
    requires TrimsSpace(n)
    ensures Letters(FoldPage(n, into, page).body) ==
            Letters(into.body) + (LettersOf("\n\n## Formerly " + page.title + "\n\n") + Letters(n.tail(page.body)))
  {
    hide LettersOf;
    var heading := Prose("\n\n## Formerly " + page.title + "\n\n");
    LettersAppend(n.trim(into.body) + [heading], n.tail(page.body));
    LettersAppend(n.trim(into.body), [heading]);
    assert [heading][..0] == [] && Letters([heading]) == [] + LettersOf(heading.text);
  }

  // ---- every page after a merge -----------------------------------------------------------------------------

  /** What a page is before its links follow: itself, and the survivor with the others' texts. */
  function BeforeLinks(n: Names, w: Wiki, selected: seq<Path>, p: Path): Page
    requires Merging(w, selected) && p in w
  {
    if p == selected[0] then FoldAll(n, w, w[p], selected[1..]) else w[p]
  }

  /** A merge leaves every page but the folded ones, changes nothing of it but its links, and the survivor's text and
      names; and every link of every page follows the folded pages. */
  lemma MergePages(n: Names, w: Wiki, selected: seq<Path>, p: Path)
    requires Merging(w, selected)
    ensures var after := MergedWiki(n, w, selected);
            && (p in after <==> p in w && p !in selected[1..])
            && (p in after ==>
                  var was := BeforeLinks(n, w, selected, p);
                  && after[p] == was.(body := after[p].body)
                  && BodyFollows(n, selected[1..], selected[0].stem, was.body, after[p].body))
  {
    hide BodyFollows, FoldAll;
    assert selected == [selected[0]] + selected[1..];
    assert selected[0] !in selected[1..];
    MergedPaths(n, w, selected, p);
    if p in MergedWiki(n, w, selected) {
      BodyIsFollowed(n, selected[1..], selected[0].stem, BeforeLinks(n, w, selected, p).body);
    }
  }

  /** The link that stands at a place of a page after a merge, for one that stood there before and reached a page:
      it reaches that page, or the one it was folded into, exactly when the link is left good. */
  lemma MergedLinkReaches(n: Names, w: Wiki, selected: seq<Path>, p: Path, k: nat, x: Path)
    requires Merging(w, selected) && p in w && p !in selected[1..]
    requires var was := BeforeLinks(n, w, selected, p).body;
             k < |was| && was[k].Wikilink? && Reaches(n, w, was[k].link, x)
    ensures var was, after := BeforeLinks(n, w, selected, p).body, MergedWiki(n, w, selected);
            && p in after && k < |after[p].body| && after[p].body[k].Wikilink?
            && LinkFollows(n, selected[1..], selected[0].stem, was[k].link, after[p].body[k].link)
            && (Reaches(n, after, after[p].body[k].link, Successor(selected, x))
                <==> MergeLeaves(n, w, selected, was[k].link, x))
  {
    hide Reaches, MergeLeaves, LinkFollows, RewriteLink, FoldAll, MergedWiki;
    var was := BeforeLinks(n, w, selected, p).body;
    MergePages(n, w, selected, p);
    MergeReaches(n, w, selected, was[k].link, x);
    RewriteFollows(n, selected[1..], selected[0].stem, was[k].link);
    OneFollower(n, selected[1..], selected[0].stem, was[k].link, MergedWiki(n, w, selected)[p].body[k].link,
                RewriteLink(n, MergeStems(n, selected), was[k].link));
  }

  lemma OneFollower(n: Names, moved: seq<Path>, stem: string, link: Link, a: Link, b: Link)
    requires LinkFollows(n, moved, stem, link, a) && LinkFollows(n, moved, stem, link, b)
    ensures a == b
  {
  }

  /** The links of a folded page's text stand in the survivor's. */
  lemma FoldedLinkStands(n: Names, w: Wiki, selected: seq<Path>, i: nat, link: Link) returns (k: nat)
    requires Merging(w, selected) && TrimsSpace(n) && i < |selected|
    requires Wikilink(link) in if i == 0 then w[selected[0]].body else n.tail(w[selected[i]].body)
    ensures var body := BeforeLinks(n, w, selected, selected[0]).body; k < |body| && body[k] == Wikilink(link)
  {
    hide FoldAll, Letters;
    assert selected[0] in w;
    var into, body := w[selected[0]].body, BeforeLinks(n, w, selected, selected[0]).body;
    FoldKeepsText(n, w, w[selected[0]], selected[1..]);
    LinksAreLetters(body, link);
    LinksAreLetters(into, link);
    if i > 0 {
      LinksAreLetters(n.tail(w[selected[i]].body), link);
      assert selected[1..][i - 1] == selected[i];
      FormerHas(n, w, selected[1..], i - 1, Wikilink(link));
    }
    k :| 0 <= k < |body| && body[k] == Wikilink(link);
  }

  lemma {:induction false} FormerHas(n: Names, w: Wiki, paths: seq<Path>, i: nat, s: Segment)
    requires (forall p :: p in paths ==> p in w) && i < |paths| && s in Letters(n.tail(w[paths[i]].body))
    ensures s in Former(n, w, paths)
  {
    var last := |paths| - 1;
    if i < last { FormerHas(n, w, paths[..last], i, s); }
  }

  // ---- every page after a rename ----------------------------------------------------------------------------

  /** A rename leaves every page, the renamed one under its new path with its own text, and every link of every page
      follows; when the path stays, so does every text. */
  lemma RenamePages(n: Names, w: Wiki, p: Path, title: string, x: Path)
    requires Renameable(n, w, p, title)
    ensures var q, after := Path(ENTITIES, n.stem(title).value), RenamedWiki(n, w, p, title);
            && (x in after <==> x == q || (x in w && x != p))
            && (x in after ==>
                  var was := if x == q then RenamedPage(n, w[p], title) else w[x];
                  && after[x] == was.(body := after[x].body)
                  && (x == q ==> was.body == w[p].body && was.kind == w[p].kind && was.acl == w[p].acl
                                 && was.sources == w[p].sources && was.title == n.squash(title))
                  && if q == p then after[x].body == was.body
                     else BodyFollows(n, [p], q.stem, was.body, after[x].body))
  {
    hide BodyFollows, KeptAliases;
    var q, after := Path(ENTITIES, n.stem(title).value), RenamedWiki(n, w, p, title);
    if x in after && q != p {
      var was := if x == q then RenamedPage(n, w[p], title) else w[x];
      OneMoved(n, p, q.stem);
      BodyIsFollowed(n, [p], q.stem, was.body);
    }
  }

  lemma OneMoved(n: Names, p: Path, stem: string)
    ensures Moved(n, [p], stem) == map[n.fold(p.stem) := stem]
  {
    assert [p][..0] == [];
    assert Moved(n, [p], stem) == Moved(n, [], stem)[n.fold(p.stem) := stem];
  }

  /** The link that stands at a place of a page after a rename, for one that stood there before and reached a page:
      it reaches that page, or its new path, exactly when the link is left good. */
  lemma RenamedLinkReaches(n: Names, w: Wiki, p: Path, title: string, y: Path, k: nat, x: Path)
    requires Renaming(n, w, p, title) && y in w && k < |w[y].body| && w[y].body[k].Wikilink?
    requires Reaches(n, w, w[y].body[k].link, x)
    ensures var q, after := Path(ENTITIES, n.stem(title).value), RenamedWiki(n, w, p, title);
            var at := if y == p then q else y;
            && at in after && k < |after[at].body| && after[at].body[k].Wikilink?
            && LinkFollows(n, [p], q.stem, w[y].body[k].link, after[at].body[k].link)
            && (Reaches(n, after, after[at].body[k].link, if x == p then q else x)
                <==> RenameLeaves(n, w, p, q.stem, w[y].body[k].link, x))
  {
    hide Reaches, RenameLeaves, LinkFollows, RewriteLink, RenamedWiki, KeptAliases;
    var q, after := Path(ENTITIES, n.stem(title).value), RenamedWiki(n, w, p, title);
    var at, link := if y == p then q else y, w[y].body[k].link;
    RenamePages(n, w, p, title, at);
    RenameReaches(n, w, p, title, link, x);
    OneMoved(n, p, q.stem);
    RewriteFollows(n, [p], q.stem, link);
    OneFollower(n, [p], q.stem, link, after[at].body[k].link, RewriteLink(n, RenameStems(n, p, q.stem), link));
  }
}
