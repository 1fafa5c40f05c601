/** What merges and renames keep: every name resolves, no two pages share one, and links follow. */
module EntityFacts {
  import opened Options
  import opened Text
  import opened EntityGraph
  import opened EntityPages

  // ---- names of a merged page ---------------------------------------------------------------------

  lemma KeysOfBoth(n: Names, a: seq<string>, b: seq<string>)
    ensures KeysOf(n, a + b) == KeysOf(n, a) + KeysOf(n, b)
  {
    var both := a + b;
    forall key ensures key in KeysOf(n, both) <==> key in KeysOf(n, a) || key in KeysOf(n, b) {
      if key in KeysOf(n, both) {
        var k :| 0 <= k < |both| && n.key(both[k]) == key;
        if k < |a| { assert a[k] == both[k]; } else { assert b[k - |a|] == both[k]; }
      }
      if key in KeysOf(n, a) {
        var k :| 0 <= k < |a| && n.key(a[k]) == key;
        assert both[k] == a[k];
      }
      if key in KeysOf(n, b) {
        var k :| 0 <= k < |b| && n.key(b[k]) == key;
        assert both[|a| + k] == b[k];
      }
    }
  }

  lemma KeysOfOne(n: Names, name: string)
    ensures KeysOf(n, [name]) == {n.key(name)}
  {
    assert [name][0] == name;
  }

  lemma {:induction false} MoreAliasesKeys(n: Names, title: string, aliases: seq<string>, names: seq<string>)
    ensures KeysOf(n, [title] + MoreAliases(n, title, aliases, names)) ==
            KeysOf(n, [title] + aliases) + KeysOf(n, names)
  {
    if names == [] {
      assert KeysOf(n, []) == {};
    } else {
      var last := |names| - 1;
      MoreAliasesKeys(n, title, aliases, names[..last]);
      KeysOfBoth(n, names[..last], [names[last]]);
      assert names == names[..last] + [names[last]];
      KeysOfOne(n, names[last]);
      var before := MoreAliases(n, title, aliases, names[..last]);
      KeysOfBoth(n, [title] + before, [names[last]]);
      assert [title] + before + [names[last]] == [title] + (before + [names[last]]);
    }
  }

  lemma FoldPageKeys(n: Names, into: Page, page: Page)
    ensures NameKeys(n, FoldPage(n, into, page)) == NameKeys(n, into) + NameKeys(n, page)
  {
    MoreAliasesKeys(n, into.title, into.aliases, [page.title] + page.aliases);
  }

  /** A merged page claims exactly the names of the pages folded into it. */
  lemma {:induction false} FoldAllKeys(n: Names, w: Wiki, into: Page, paths: seq<Path>, key: string)
    requires forall p :: p in paths ==> p in w
    ensures key in NameKeys(n, FoldAll(n, w, into, paths)) <==>
              key in NameKeys(n, into) || exists p :: p in paths && key in NameKeys(n, w[p])
  {
    if paths != [] {
      var last := |paths| - 1;
      assert paths == paths[..last] + [paths[last]];
      FoldAllKeys(n, w, into, paths[..last], key);
      FoldPageKeys(n, FoldAll(n, w, into, paths[..last]), w[paths[last]]);
    }
  }

  lemma RewrittenClaimants(n: Names, stems: map<string, string>, w: Wiki, key: string)
    ensures Claimants(n, RewriteWiki(n, stems, w), key) == Claimants(n, w, key)
  {
    forall p | p in w ensures NameKeys(n, RewriteWiki(n, stems, w)[p]) == NameKeys(n, w[p]) {}
  }

  lemma FoldedClaims(n: Names, w: Wiki, selected: seq<Path>, key: string, q: Path)
    requires Mergeable(w, selected) && forall i, j :: 0 <= i < j < |selected| ==> selected[i] != selected[j]
    ensures q in Claimants(n, Folded(n, w, selected), key) <==>
              if q == selected[0] then exists p :: p in selected && key in NameKeys(n, w[p])
              else q !in selected && q in Claimants(n, w, key)
  {
    FoldAllKeys(n, w, w[selected[0]], selected[1..], key);
    assert selected == [selected[0]] + selected[1..];
  }

  /** Each name of a folded page resolves to the survivor, and each other name to the page it did. */
  lemma MergeKeepsNames(n: Names, w: Wiki, selected: seq<Path>, key: string)
    requires Mergeable(w, selected) && Unique(n, w) && forall i, j :: 0 <= i < j < |selected| ==>
             selected[i] != selected[j]
    ensures Claimants(n, MergedWiki(n, w, selected), key) ==
            if exists p :: p in selected && key in NameKeys(n, w[p]) then {selected[0]} else Claimants(n, w, key)
  {
    RewrittenClaimants(n, Moved(n, selected[1..], selected[0].stem), Folded(n, w, selected), key);
    UniqueIsOne(n, w);
    forall q ensures q in Claimants(n, Folded(n, w, selected), key) <==>
      q in (if exists p :: p in selected && key in NameKeys(n, w[p]) then {selected[0]} else Claimants(n, w, key))
    {
      FoldedClaims(n, w, selected, key, q);
      if p :| p in selected && key in NameKeys(n, w[p]) {
        assert p in Claimants(n, w, key);
      } else if q in selected {
        assert key !in NameKeys(n, w[q]);
      }
    }
  }

  /** No two entity pages share a name exactly when every key has at most one claimant. */
  lemma UniqueIsOne(n: Names, w: Wiki)
    ensures Unique(n, w) <==> forall key, p, q :: p in Claimants(n, w, key) && q in Claimants(n, w, key) ==> p == q
  {
    if !Unique(n, w) {
      var p, q :| p in w && q in w && IsEntity(p) && IsEntity(q) && p != q && !(NameKeys(n, w[p]) !! NameKeys(n, w[q]));
      var key :| key in NameKeys(n, w[p]) && key in NameKeys(n, w[q]);
      assert p in Claimants(n, w, key) && q in Claimants(n, w, key);
    }
  }

  /** Merging keeps names unique. */
  lemma MergeKeepsUnique(n: Names, w: Wiki, selected: seq<Path>)
    requires Mergeable(w, selected) && Unique(n, w) && forall i, j :: 0 <= i < j < |selected| ==>
             selected[i] != selected[j]
    ensures Unique(n, MergedWiki(n, w, selected))
  {
    var after := MergedWiki(n, w, selected);
    UniqueIsOne(n, w);
    UniqueIsOne(n, after);
    forall key, p, q | p in Claimants(n, after, key) && q in Claimants(n, after, key) ensures p == q {
      MergeKeepsNames(n, w, selected, key);
    }
  }

  // ---- names of a renamed page --------------------------------------------------------------------

  /** White space in a title does not change its key. */
  ghost predicate Squashes(n: Names) { forall t :: n.key(n.squash(t)) == n.key(t) }

  lemma {:induction false} KeptKeys(n: Names, names: seq<string>, key: string)
    ensures KeysOf(n, KeptAliases(n, names, key)) == KeysOf(n, names) - {key}
  {
    var kept := KeptAliases(n, names, key);
    forall k ensures k in KeysOf(n, kept) <==> k in KeysOf(n, names) && k != key {
      if k in KeysOf(n, kept) {
        var i :| 0 <= i < |kept| && n.key(kept[i]) == k;
        assert kept[i] in kept;
        var j :| 0 <= j < |names| && names[j] == kept[i];
      }
      if k in KeysOf(n, names) && k != key {
        var j :| 0 <= j < |names| && n.key(names[j]) == k;
        assert names[j] in kept;
        var i :| 0 <= i < |kept| && kept[i] == names[j];
      }
    }
  }

  /** A renamed page keeps every name it had and gains its new title. */
  lemma RenamedKeys(n: Names, page: Page, title: string)
    requires Squashes(n)
    ensures NameKeys(n, RenamedPage(n, page, title)) == NameKeys(n, page) + {n.key(title)}
  {
    var r := RenamedPage(n, page, title);
    KeysOfBoth(n, [r.title], r.aliases);
    KeysOfBoth(n, [page.title], page.aliases);
    KeysOfBoth(n, page.aliases, [page.title]);
    KeysOfOne(n, r.title);
    KeptKeys(n, page.aliases + [page.title], n.key(title));
  }

  /** Every old name and the new one resolve to the renamed page, and every other name as before. */
  lemma RenameKeepsNames(n: Names, w: Wiki, p: Path, title: string, key: string)
    requires Renameable(n, w, p, title) && Unique(n, w) && Squashes(n)
    ensures Claimants(n, RenamedWiki(n, w, p, title), key) ==
            if key == n.key(title) || key in NameKeys(n, w[p]) then {Path(ENTITIES, n.stem(title).value)}
            else Claimants(n, w, key)
  {
    var q := Path(ENTITIES, n.stem(title).value);
    var page := RenamedPage(n, w[p], title);
    var moved := (w - {p})[q := page];
    RenamedKeys(n, w[p], title);
    if p == q { assert moved == w[p := page]; }
    RewrittenClaimants(n, map[n.fold(p.stem) := q.stem], moved, key);
    forall x ensures x in Claimants(n, moved, key) <==>
      x in (if key == n.key(title) || key in NameKeys(n, w[p]) then {q} else Claimants(n, w, key))
    {
      if x in w && x != p && x != q && IsEntity(x) && key in NameKeys(n, w[x]) {
        assert x in Claimants(n, w, key);
      }
    }
  }

  lemma RenameKeepsUnique(n: Names, w: Wiki, p: Path, title: string)
    requires Renameable(n, w, p, title) && Unique(n, w) && Squashes(n)
    ensures Unique(n, RenamedWiki(n, w, p, title))
  {
    var after := RenamedWiki(n, w, p, title);
    UniqueIsOne(n, w);
    UniqueIsOne(n, after);
    forall key, x, y | x in Claimants(n, after, key) && y in Claimants(n, after, key) ensures x == y {
      RenameKeepsNames(n, w, p, title, key);
    }
  }

  // ---- links ----------------------------------------------------------------------------------------

  /** No page but those has a stem that folds like one of theirs. */
  ghost predicate OwnStems(n: Names, w: Wiki, moved: seq<Path>, but: seq<Path>) {
    forall p, q :: p in moved && q in w && q !in but ==> n.fold(q.stem) != n.fold(p.stem)
  }

  lemma {:induction false} MovedIs(n: Names, paths: seq<Path>, stem: string, key: string)
    ensures key in Moved(n, paths, stem) <==> exists p :: p in paths && n.fold(p.stem) == key
    ensures key in Moved(n, paths, stem) ==> Moved(n, paths, stem)[key] == stem
  {
    if paths != [] {
      MovedIs(n, paths[..|paths| - 1], stem, key);
      assert paths == paths[..|paths| - 1] + [paths[|paths| - 1]];
    }
  }

  /** Where each page of a merge went. */
  function Successor(selected: seq<Path>, p: Path): Path
    requires selected != []
  {
    if p in selected then selected[0] else p
  }

  predicate Merging(w: Wiki, selected: seq<Path>) {
    Mergeable(w, selected) && forall i, j :: 0 <= i < j < |selected| ==> selected[i] != selected[j]
  }

  function MergeStems(n: Names, selected: seq<Path>): map<string, string>
    requires selected != []
  {
    Moved(n, selected[1..], selected[0].stem)
  }

  lemma MergedPaths(n: Names, w: Wiki, selected: seq<Path>, x: Path)
    requires Merging(w, selected)
    ensures x in MergedWiki(n, w, selected) <==> x in w && (x !in selected || x == selected[0])
  {
    assert selected == [selected[0]] + selected[1..];
  }

  /** A link is still good after a merge: one the rewrite leaves, if it reached no folded page; one it changes,
      if the survivor's stem is read back off it and reaches the survivor alone, or, where the link reached a
      page outside the merge, that page. */
  ghost predicate MergeLeaves(n: Names, w: Wiki, selected: seq<Path>, link: Link, p: Path)
    requires selected != []
  {
    var stem := selected[0].stem;
    if !Rewrites(n, MergeStems(n, selected), link) then p !in selected[1..]
    else if p in selected then ReadsBack(n, stem) && Sole(n, w, stem, selected)
    else TargetOf(n, Plain(stem)) == n.lower(p.stem)
  }

  /** Merging keeps the graph whole exactly so: a link that reached a page reaches it, or the page it was folded
      into, if and only if it is left good. */
  lemma MergeReaches(n: Names, w: Wiki, selected: seq<Path>, link: Link, p: Path)
    requires Merging(w, selected) && Reaches(n, w, link, p)
    ensures Reaches(n, MergedWiki(n, w, selected), RewriteLink(n, MergeStems(n, selected), link),
                    Successor(selected, p)) <==>
              MergeLeaves(n, w, selected, link, p)
  {
    hide MergedWiki, TargetOf, Cleaned, Rewrites;
    var after, stems, q := MergedWiki(n, w, selected), MergeStems(n, selected), Successor(selected, p);
    var stem := selected[0].stem;
    forall x ensures x in after <==> x in w && (x !in selected || x == selected[0]) { MergedPaths(n, w, selected, x); }
    assert selected[0] in w && selected == [selected[0]] + selected[1..];
    if Rewrites(n, stems, link) {
      MergeTarget(n, selected, link);
    } else {
      NotRewritten(n, stems, link);
    }
  }

  lemma MergeTarget(n: Names, selected: seq<Path>, link: Link)
    requires selected != [] && Rewrites(n, MergeStems(n, selected), link)
    ensures TargetOf(n, RewriteLink(n, MergeStems(n, selected), link)) == TargetOf(n, Plain(selected[0].stem))
  {
    hide TargetOf, Cleaned;
    MovedIs(n, selected[1..], selected[0].stem, n.fold(Cleaned(link)));
    RewrittenTarget(n, MergeStems(n, selected), link);
  }

  lemma NotRewritten(n: Names, stems: map<string, string>, link: Link)
    requires !Rewrites(n, stems, link)
    ensures RewriteLink(n, stems, link) == link
  {
  }

  /** When moved stems belong to no other page, a link with its suffix, if any, in lower case reaches the page it
      did or its successor exactly when it need not be changed, or the survivor's stem is read back off a link
      and no page outside the merge has it. */
  lemma MergeKeepsLinks(n: Names, w: Wiki, selected: seq<Path>, link: Link, p: Path)
    requires Merging(w, selected) && OwnStems(n, w, selected[1..], selected)
    requires Coarser(n) && PlainSuffix(n, link) && Reaches(n, w, link, p)
    ensures Reaches(n, MergedWiki(n, w, selected), RewriteLink(n, MergeStems(n, selected), link),
                    Successor(selected, p)) <==>
              (Rewrites(n, MergeStems(n, selected), link) ==>
               ReadsBack(n, selected[0].stem) && Sole(n, w, selected[0].stem, selected))
    ensures p !in selected ==> !Rewrites(n, MergeStems(n, selected), link)
  {
    MergeReaches(n, w, selected, link, p);
    SameName(n, w, link, p);
    MovedIs(n, selected[1..], selected[0].stem, n.fold(Cleaned(link)));
    assert selected == [selected[0]] + selected[1..];
  }

  /** Doing the rewrite of a merge or a rename again changes nothing more, whatever the stems. */
  lemma MoveTwice(n: Names, w: Wiki, selected: seq<Path>, from: string, to: string)
    requires selected != []
    ensures var stems := MergeStems(n, selected);
            RewriteWiki(n, stems, RewriteWiki(n, stems, w)) == RewriteWiki(n, stems, w)
    ensures var stems := map[n.fold(from) := to];
            RewriteWiki(n, stems, RewriteWiki(n, stems, w)) == RewriteWiki(n, stems, w)
  {
    var stems := MergeStems(n, selected);
    forall k ensures k in stems ==> stems[k] == selected[0].stem { MovedIs(n, selected[1..], selected[0].stem, k); }
    RewriteTwice(n, stems, w);
    RewriteTwice(n, map[n.fold(from) := to], w);
  }

  predicate Renaming(n: Names, w: Wiki, p: Path, title: string) {
    Renameable(n, w, p, title) && Path(ENTITIES, n.stem(title).value) != p
  }

  function RenameStems(n: Names, p: Path, stem: string): map<string, string> { map[n.fold(p.stem) := stem] }

  /** A link is still good after a rename: one to the page itself, if the rewrite changes it to a stem that is
      read back and the page's alone, or need not change it; one to another page, if the new stem is not that
      page's, and the rewrite leaves it or points it there. */
  ghost predicate RenameLeaves(n: Names, w: Wiki, p: Path, stem: string, link: Link, x: Path) {
    if x == p then
      if Rewrites(n, RenameStems(n, p, stem), link) then ReadsBack(n, stem) && Sole(n, w, stem, [p])
      else n.lower(stem) == n.lower(p.stem)
    else
      && n.lower(stem) != n.lower(x.stem)
      && (Rewrites(n, RenameStems(n, p, stem), link) ==> TargetOf(n, Plain(stem)) == n.lower(x.stem))
  }

  /** Renaming keeps the graph whole exactly so: a link that reached a page reaches it, or its new path, if and
      only if it is left good. */
  lemma RenameReaches(n: Names, w: Wiki, p: Path, title: string, link: Link, x: Path)
    requires Renaming(n, w, p, title) && Reaches(n, w, link, x)
    ensures var q := Path(ENTITIES, n.stem(title).value);
            Reaches(n, RenamedWiki(n, w, p, title), RewriteLink(n, RenameStems(n, p, q.stem), link),
                    if x == p then q else x) <==>
            RenameLeaves(n, w, p, q.stem, link, x)
  {
    hide TargetOf, Cleaned;
    var q := Path(ENTITIES, n.stem(title).value);
    var after, stems := RenamedWiki(n, w, p, title), RenameStems(n, p, q.stem);
    assert forall y :: y in after <==> (y in w && y != p) || y == q;
    if Rewrites(n, stems, link) {
      RewrittenTarget(n, stems, link);
    } else {
      assert RewriteLink(n, stems, link) == link;
    }
  }

  /** When no other page folds to the moved stem and none has the new one, a link with its suffix, if any, in
      lower case reaches the page it did or its new path exactly when it need not be changed, or the new stem is
      read back off a link. */
  lemma RenameKeepsLinks(n: Names, w: Wiki, p: Path, title: string, link: Link, x: Path)
    requires Renaming(n, w, p, title) && OwnStems(n, w, [p], [p]) && Sole(n, w, n.stem(title).value, [p])
    requires Coarser(n) && PlainSuffix(n, link) && Reaches(n, w, link, x)
    ensures var q := Path(ENTITIES, n.stem(title).value);
            var r, after := RewriteLink(n, RenameStems(n, p, q.stem), link), RenamedWiki(n, w, p, title);
            && (Reaches(n, after, r, if x == p then q else x)
                <==> (Rewrites(n, RenameStems(n, p, q.stem), link) ==> ReadsBack(n, q.stem)))
            && (x != p ==> !Rewrites(n, RenameStems(n, p, q.stem), link))
  {
    RenameReaches(n, w, p, title, link, x);
    SameName(n, w, link, x);
  }

  // ---- names of a page, and the order of lists -----------------------------------------------------------

  /** Where names are unique, each name of a page, its title or an alias, and nothing else finds the page. */
  lemma NameFinds(n: Names, w: Wiki, p: Path, reference: string)
    requires Unique(n, w) && p in w && IsEntity(p)
    requires var path := n.path(reference); path.None? || !IsEntity(path.value) || path.value !in w
    ensures Finds(n, w, reference, Some(p)) <==>
              n.key(w[p].title) == n.key(reference) || exists a :: a in w[p].aliases && n.key(a) == n.key(reference)
  {
    var names := [w[p].title] + w[p].aliases;
    if a :| a in w[p].aliases && n.key(a) == n.key(reference) {
      var i :| 0 <= i < |w[p].aliases| && w[p].aliases[i] == a;
      assert names[i + 1] == a;
    }
    assert names[0] == w[p].title;
    assert n.key(reference) in NameKeys(n, w[p]) <==>
           n.key(w[p].title) == n.key(reference) || exists a :: a in w[p].aliases && n.key(a) == n.key(reference) by {
      if n.key(reference) in NameKeys(n, w[p]) {
        var i :| 0 <= i < |names| && n.key(names[i]) == n.key(reference);
        if i > 0 { assert names[i] in w[p].aliases; }
      }
    }
    UniqueIsOne(n, w);
    assert p in Claimants(n, w, n.key(reference)) <==> n.key(reference) in NameKeys(n, w[p]);
  }

  /** Pages are merged in the order they are first listed. */
  lemma {:induction false} DistinctInOrder(paths: seq<Path>, k: nat)
    requires k <= |paths|
    ensures Distinct(paths[..k]) <= Distinct(paths)
  {
    if k == |paths| {
      assert paths[..k] == paths;
    } else {
      var last := |paths| - 1;
      DistinctInOrder(paths[..last], k);
      assert paths[..last][..k] == paths[..k];
    }
  }

  /** A renamed page keeps its aliases in their order. */
  lemma {:induction false} KeptInOrder(n: Names, names: seq<string>, key: string, k: nat)
    requires k <= |names|
    ensures KeptAliases(n, names[..k], key) <= KeptAliases(n, names, key)
  {
    if k == |names| {
      assert names[..k] == names;
    } else {
      hide KeysOf;
      var last := |names| - 1;
      assert KeptAliases(n, names[..last], key) <= KeptAliases(n, names, key);
      KeptInOrder(n, names[..last], key, k);
      assert names[..last][..k] == names[..k];
    }
  }
}
