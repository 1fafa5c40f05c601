/** Merging and renaming entity pages in place, and what both keep. */
module EntityPages {
  import opened Options
  import opened Text
  import opened EntityGraph

  // ---- names ----------------------------------------------------------------------------------------

  predicate IsEntity(p: Path) { p.folder == ENTITIES }

  function KeysOf(n: Names, names: seq<string>): set<string> { set k | 0 <= k < |names| :: n.key(names[k]) }

  function NameKeys(n: Names, page: Page): set<string> { KeysOf(n, [page.title] + page.aliases) }

  /** The entity pages that claim a key. */
  function Claimants(n: Names, w: Wiki, key: string): set<Path> {
    set p | p in w && IsEntity(p) && key in NameKeys(n, w[p])
  }

  /** No two entity pages share a name. */
  ghost predicate Unique(n: Names, w: Wiki) {
    forall p, q :: p in w && q in w && IsEntity(p) && IsEntity(q) && p != q ==> NameKeys(n, w[p]) !! NameKeys(n, w[q])
  }

  /** A path resolves to its page; anything else to the one page that claims it, if one does. */
  ghost predicate Finds(n: Names, w: Wiki, reference: string, found: Option<Path>) {
    var path := n.path(reference);
    if path.Some? && IsEntity(path.value) && path.value in w then found == path
    else match found
         case Some(p) => Claimants(n, w, n.key(reference)) == {p}
         case None => forall p :: Claimants(n, w, n.key(reference)) != {p}
  }

  // ---- merging ----------------------------------------------------------------------------------------

  datatype Refusal =
    NotDistinct | DifferentTypes | DifferentVisibility | Unproven | NoSuchPage | BadTitle | TitleTaken | NameClaimed

  datatype Outcome = Done(path: Path) | Refused(why: Refusal)

  function Distinct(paths: seq<Path>): (r: seq<Path>)
    ensures forall p :: p in r <==> p in paths
    ensures forall i, j :: 0 <= i < j < |r| ==> r[i] != r[j]
    ensures paths != [] ==> r != [] && r[0] == paths[0]
  {
    if paths == [] then []
    else
      var last := |paths| - 1;
      var before := Distinct(paths[..last]);
      if paths[last] in before then before else before + [paths[last]]
  }

  function Members(paths: seq<Path>): set<Path> { set p | p in paths }

  /** Names not yet claimed by a page become aliases. */
  function MoreAliases(n: Names, title: string, aliases: seq<string>, names: seq<string>): (r: seq<string>)
    ensures aliases <= r
  {
    if names == [] then aliases
    else
      var last := |names| - 1;
      var before := MoreAliases(n, title, aliases, names[..last]);
      if n.key(names[last]) in KeysOf(n, [title] + before) then before else before + [names[last]]
  }

  function MoreSources(sources: seq<string>, others: seq<string>): (r: seq<string>)
    ensures sources <= r && forall s :: s in r <==> s in sources || s in others
  {
    if others == [] then sources
    else
      var last := |others| - 1;
      var before := MoreSources(sources, others[..last]);
      assert others == others[..last] + [others[last]];
      if others[last] in before then before else before + [others[last]]
  }

  function FoldPage(n: Names, into: Page, page: Page): Page {
    into.(body := n.trim(into.body) + [Prose("\n\n## Formerly " + page.title + "\n\n")] + n.tail(page.body),
          aliases := MoreAliases(n, into.title, into.aliases, [page.title] + page.aliases),
          sources := MoreSources(into.sources, page.sources))
  }

  function FoldAll(n: Names, w: Wiki, into: Page, paths: seq<Path>): Page
    requires forall p :: p in paths ==> p in w
  {
    if paths == [] then into else FoldPage(n, FoldAll(n, w, into, paths[..|paths| - 1]), w[paths[|paths| - 1]])
  }

  /** Later stems win where two fold to the same. */
  function Moved(n: Names, paths: seq<Path>, stem: string): map<string, string> {
    if paths == [] then map[] else Moved(n, paths[..|paths| - 1], stem)[n.fold(paths[|paths| - 1].stem) := stem]
  }

  predicate Mergeable(w: Wiki, selected: seq<Path>) {
    && |selected| >= 2
    && (forall p :: p in selected ==> p in w && IsEntity(p))
    && (forall p, q :: p in selected && q in selected ==> w[p].kind == w[q].kind && w[p].acl == w[q].acl)
  }

  /** The first thing in the way of a merge. */
  ghost function WhyNotMerge(w: Wiki, selected: seq<Path>): Refusal {
    if |selected| < 2 || exists p :: p in selected && (p !in w || !IsEntity(p)) then NotDistinct
    else if exists p, q :: p in selected && q in selected && w[p].kind != w[q].kind then DifferentTypes
    else if exists p, q :: p in selected && q in selected && w[p].acl != w[q].acl then DifferentVisibility
    else Unproven
  }

  /** The wiki after a merge, its links not yet rewritten. */
  function Folded(n: Names, w: Wiki, selected: seq<Path>): Wiki
    requires Mergeable(w, selected)
  {
    var rest := Members(selected[1..]);
    (w - rest)[selected[0] := FoldAll(n, w, w[selected[0]], selected[1..])]
  }

  function MergedWiki(n: Names, w: Wiki, selected: seq<Path>): Wiki
    requires Mergeable(w, selected)
  {
    RewriteWiki(n, Moved(n, selected[1..], selected[0].stem), Folded(n, w, selected))
  }

  // ---- renaming ---------------------------------------------------------------------------------------

  function KeptAliases(n: Names, names: seq<string>, key: string): (r: seq<string>)
    ensures forall x :: x in r <==> x in names && n.key(x) != key
  {
    if names == [] then []
    else
      var last := |names| - 1;
      var before := KeptAliases(n, names[..last], key);
      assert names == names[..last] + [names[last]];
      if n.key(names[last]) == key || names[last] in before then before else before + [names[last]]
  }

  predicate Renameable(n: Names, w: Wiki, p: Path, title: string) {
    && p in w && IsEntity(p) && n.stem(title).Some?
    && (Path(ENTITIES, n.stem(title).value) != p ==> Path(ENTITIES, n.stem(title).value) !in w)
    && Claimants(n, w, n.key(title)) <= {p}
  }

  /** The first thing in the way of a rename. */
  ghost function WhyNotRename(n: Names, w: Wiki, p: Path, title: string): Refusal {
    if p !in w || !IsEntity(p) then NoSuchPage
    else if n.stem(title).None? then BadTitle
    else if Path(ENTITIES, n.stem(title).value) in w - {p} then TitleTaken
    else NameClaimed
  }

  function RenamedPage(n: Names, page: Page, title: string): Page {
    page.(title := n.squash(title), aliases := KeptAliases(n, page.aliases + [page.title], n.key(title)))
  }

  function RenamedWiki(n: Names, w: Wiki, p: Path, title: string): Wiki
    requires Renameable(n, w, p, title)
  {
    var q := Path(ENTITIES, n.stem(title).value);
    var page := RenamedPage(n, w[p], title);
    if p == q then w[p := page]
    else RewriteWiki(n, map[n.fold(p.stem) := q.stem], (w - {p})[q := page])
  }

  predicate Claims(n: Names, w: Wiki, done: set<Path>, key: string, p: Path) {
    p in done && p in w && IsEntity(p) && key in NameKeys(n, w[p])
  }

  /** The index holds what the pages done claim. */
  ghost predicate Indexes(n: Names, w: Wiki, done: set<Path>, index: map<string, set<Path>>) {
    && (forall key, p :: key in index && p in index[key] <==> Claims(n, w, done, key, p))
    && (forall key :: key in index ==> index[key] != {})
  }

  // ---- the operations, in place -----------------------------------------------------------------------

  class Store {
    const n: Names
    var pages: Wiki

    method NameIndex() returns (index: map<string, set<Path>>)
      ensures forall key :: key in index <==> Claimants(n, pages, key) != {}
      ensures forall key :: key in index ==> index[key] == Claimants(n, pages, key)
    {
      index := map[];
      var rest := pages.Keys;
      ghost var done: set<Path> := {};
      while rest != {}
        invariant done + rest == pages.Keys && Indexes(n, pages, done, index)
        decreases |rest|
      {
        var p :| p in rest;
        rest := rest - {p};
        index := IndexPage(index, p, done);
        done := done + {p};
      }
      forall key ensures key in index <==> Claimants(n, pages, key) != {} {
        if key in index { var p :| p in index[key]; assert p in Claimants(n, pages, key); }
        if Claimants(n, pages, key) != {} {
          var p :| p in Claimants(n, pages, key);
          assert Claims(n, pages, done, key, p);
        }
      }
      forall key | key in index ensures index[key] == Claimants(n, pages, key) {
        forall p ensures p in index[key] <==> p in Claimants(n, pages, key) {
          assert Claims(n, pages, done, key, p) <==> p in Claimants(n, pages, key);
        }
      }
    }

    method IndexPage(index: map<string, set<Path>>, p: Path, ghost done: set<Path>)
        returns (more: map<string, set<Path>>)
      requires p in pages && Indexes(n, pages, done, index)
      ensures Indexes(n, pages, done + {p}, more)
    {
      more := index;
      if IsEntity(p) {
        var keys := NameKeys(n, pages[p]);
        more := map key | key in index.Keys + keys ::
          (if key in index then index[key] else {}) + (if key in keys then {p} else {});
      }
      forall key, q ensures key in more && q in more[key] <==> Claims(n, pages, done + {p}, key, q) {
        assert key in index && q in index[key] <==> Claims(n, pages, done, key, q);
      }
    }

    method FindEntity(reference: string) returns (found: Option<Path>)
      ensures Finds(n, pages, reference, found)
    {
      var path := n.path(reference);
      if path.Some? && IsEntity(path.value) && path.value in pages { return path; }
      var index := NameIndex();
      var matches := if n.key(reference) in index then index[n.key(reference)] else {};
      found := None;
      if |matches| == 1 {
        var p :| p in matches;
        assert |matches - {p}| == 0;
        found := Some(p);
      }
    }

    /** Points every link at a moved stem to its new stem, page by page. */
    method RewriteLinks(stems: map<string, string>)
      modifies this
      ensures pages == RewriteWiki(n, stems, old(pages))
    {
      ghost var before := pages;
      var rest := pages.Keys;
      while rest != {}
        invariant pages.Keys == before.Keys && rest <= before.Keys
        invariant forall p :: p in before ==>
                    pages[p] == if p in rest then before[p] else RewritePage(n, stems, before[p])
        decreases |rest|
      {
        var p :| p in rest;
        rest := rest - {p};
        pages := pages[p := RewritePage(n, stems, pages[p])];
      }
      assert pages == RewriteWiki(n, stems, before);
    }

    method MergeEntities(paths: seq<Path>, verified: bool) returns (r: Outcome)
      modifies this
      ensures var selected := Distinct(paths);
              if Mergeable(old(pages), selected) && verified
              then r == Done(selected[0]) && pages == MergedWiki(n, old(pages), selected)
              else r == Refused(WhyNotMerge(old(pages), selected)) && pages == old(pages)
      ensures var selected, w := Distinct(paths), old(pages);
              r.Done? <==>
                && verified && |selected| >= 2 && (forall p :: p in selected ==> p in w && p.folder == ENTITIES)
                && forall p, q :: p in selected && q in selected ==> w[p].kind == w[q].kind && w[p].acl == w[q].acl
    {
      hide NameKeys, FoldAll, Moved, RewriteWiki, WhyNotMerge;
      var selected := Distinct(paths);
      var refusal := MayMerge(selected, verified);
      if refusal.Some? { return Refused(refusal.value); }
      var page, links := FoldPages(selected[0], selected[1..]);
      pages := pages[selected[0] := page];
      RewriteLinks(links);
      r := Done(selected[0]);
    }

    /** What is checked before anything is changed, in this order. */
    method MayMerge(selected: seq<Path>, verified: bool) returns (refusal: Option<Refusal>)
      ensures refusal.None? <==> Mergeable(pages, selected) && verified
      ensures refusal.Some? ==> refusal.value == WhyNotMerge(pages, selected)
    {
      if |selected| < 2 || exists p :: p in selected && !(p in pages && IsEntity(p)) { return Some(NotDistinct); }
      if exists p, q :: p in selected && q in selected && pages[p].kind != pages[q].kind {
        return Some(DifferentTypes);
      }
      if exists p, q :: p in selected && q in selected && pages[p].acl != pages[q].acl {
        return Some(DifferentVisibility);
      }
      refusal := if verified then None else Some(Unproven);
    }

    /** Folds pages into the first one's text and names, and removes them. */
    method FoldPages(first: Path, folded: seq<Path>) returns (page: Page, links: map<string, string>)
      requires first in pages && forall p :: p in folded ==> p in pages
      requires forall i, j :: 0 <= i < j < |folded| ==> folded[i] != folded[j]
      modifies this
      ensures page == FoldAll(n, old(pages), old(pages[first]), folded) && links == Moved(n, folded, first.stem)
      ensures pages == old(pages) - Members(folded)
    {
      ghost var w := pages;
      page, links := pages[first], map[];
      var i := 0;
      while i < |folded|
        invariant i <= |folded|
        invariant page == FoldAll(n, w, w[first], folded[..i]) && links == Moved(n, folded[..i], first.stem)
        invariant pages == w - Members(folded[..i])
      {
        var from := folded[i];
        assert folded[..i + 1][..i] == folded[..i];
        Removed(w, folded, i);
        page := FoldPage(n, page, pages[from]);
        links := links[n.fold(from.stem) := first.stem];
        pages := pages - {from};
        i := i + 1;
      }
      assert folded[..i] == folded;
    }

    method RenameEntity(p: Path, title: string) returns (r: Outcome)
      modifies this
      ensures if Renameable(n, old(pages), p, title)
              then r == Done(Path(ENTITIES, n.stem(title).value)) && pages == RenamedWiki(n, old(pages), p, title)
              else r == Refused(WhyNotRename(n, old(pages), p, title)) && pages == old(pages)
      ensures var w := old(pages);
              r.Done? <==>
                && p in w && p.folder == ENTITIES && n.stem(title).Some?
                && (Path(ENTITIES, n.stem(title).value) in w ==> Path(ENTITIES, n.stem(title).value) == p)
                && forall x :: x in w && x.folder == ENTITIES && x != p ==> n.key(title) !in NameKeys(n, w[x])
    {
      hide NameKeys, RenamedPage, RewriteWiki, WhyNotRename, Claimants;
      RenameableIs(n, pages, p, title);
      var refusal := MayRename(p, title);
      if refusal.Some? { return Refused(refusal.value); }
      var q := Path(ENTITIES, n.stem(title).value);
      var page := RenamedPage(n, pages[p], title);
      if q != p {
        pages := pages - {p};
      }
      pages := pages[q := page];
      if q != p {
        RewriteLinks(map[n.fold(p.stem) := q.stem]);
      }
      r := Done(q);
    }

    /** What is checked before anything is changed, in this order. */
    method MayRename(p: Path, title: string) returns (refusal: Option<Refusal>)
      ensures refusal.None? <==> Renameable(n, pages, p, title)
      ensures refusal.Some? ==> refusal.value == WhyNotRename(n, pages, p, title)
    {
      if p !in pages || !IsEntity(p) { return Some(NoSuchPage); }
      var stem := n.stem(title);
      if stem.None? { return Some(BadTitle); }
      var q := Path(ENTITIES, stem.value);
      if q != p && q in pages { return Some(TitleTaken); }
      var index := NameIndex();
      var key := n.key(title);
      if key in index && exists other :: other in index[key] && other != p { return Some(NameClaimed); }
      assert Claimants(n, pages, key) <= {p};
      refusal := None;
    }
  }

  lemma RenameableIs(n: Names, w: Wiki, p: Path, title: string)
    ensures Renameable(n, w, p, title) <==>
              && p in w && p.folder == ENTITIES && n.stem(title).Some?
              && (Path(ENTITIES, n.stem(title).value) in w ==> Path(ENTITIES, n.stem(title).value) == p)
              && forall x :: x in w && x.folder == ENTITIES && x != p ==> n.key(title) !in NameKeys(n, w[x])
  {
    hide NameKeys;
    assert forall x :: x in Claimants(n, w, n.key(title)) <==>
             x in w && x.folder == ENTITIES && n.key(title) in NameKeys(n, w[x]);
  }

  lemma Removed(w: Wiki, folded: seq<Path>, i: nat)
    requires i < |folded| && folded[i] in w && forall j, k :: 0 <= j < k < |folded| ==> folded[j] != folded[k]
    ensures folded[i] !in Members(folded[..i])
    ensures w - Members(folded[..i + 1]) == w - Members(folded[..i]) - {folded[i]}
  {
    assert folded[..i + 1] == folded[..i] + [folded[i]];
  }
}
