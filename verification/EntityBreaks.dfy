/** Wikis and links that a merge or a rename breaks. */
module EntityBreaks {
  import opened Options
  import opened Text
  import opened EntityGraph
  import opened EntityPages
  import opened EntityFacts

  function LowerChar(c: char): char { if 'A' <= c <= 'Z' then c - 'A' + 'a' else c }

  function Lower(t: string): (r: string)
    ensures |r| == |t| && forall k :: 0 <= k < |t| ==> r[k] == LowerChar(t[k])
  {
    seq(|t|, k requires 0 <= k < |t| => LowerChar(t[k]))
  }

  /** Names compared by ASCII case alone; a title is its own stem. */
  const ASCII := Names(t => Lower(t), t => Lower(t), t => Lower(t), t => Some(t), t => t, (b: Body) => b,
                       (b: Body) => b, (t: string) => None)

  const PAGE := Page("", [], "person", "", [], [])

  function Entity(stem: string): Path { Path(ENTITIES, stem) }

  function Note(stem: string): Path { Path("wiki/notes", stem) }

  function Wikis(paths: set<Path>): Wiki { map p | p in paths :: PAGE.(title := p.stem) }

  lemma Stripped(t: string)
    requires t != [] && !IsSpace(t[0]) && !IsSpace(t[|t| - 1])
    ensures Strip(t) == t
  {
  }

  lemma SuffixCut(stem: string, suffix: string)
    requires suffix in {".md", ".MD"}
    ensures var name := stem + suffix;
            EndsWith(Lower(name), SUFFIX) && Cut(name, 3) == stem && (EndsWith(name, SUFFIX) <==> suffix == ".md")
  {
    var name := stem + suffix;
    assert name[|stem|..] == suffix;
    assert suffix[1] in {'m', 'M'} && suffix[2] in {'d', 'D'};
    assert Lower(name)[|stem|..] == SUFFIX;
    assert suffix == ".MD" ==> suffix[1] == 'M' && SUFFIX[1] == 'm';
  }

  /** What the index and the rewrite read off a link to a stem, with or without a suffix after it. */
  lemma ReadOff(stem: string, suffix: string)
    requires stem != [] && !IsSpace(stem[0]) && !IsSpace(stem[|stem| - 1]) && suffix in {"", ".md", ".MD"}
    requires suffix == "" ==> !EndsWith(Lower(stem), SUFFIX) && !EndsWith(stem, SUFFIX)
    ensures TargetOf(ASCII, Plain(stem + suffix)) == Lower(stem)
    ensures Cleaned(Plain(stem + suffix)) == if suffix == ".MD" then stem + suffix else stem
  {
    hide Lower, EndsWith, Strip, Cut;
    var name := stem + suffix;
    if suffix == "" {
      assert name == stem;
    } else {
      assert suffix[2] in {'d', 'D'} && name[|name| - 1] == suffix[2];
      SuffixCut(stem, suffix);
    }
    assert name[0] == stem[0];
    Stripped(name);
  }

  lemma Lowers()
    ensures Lower("a") == "a" && Lower("b") == "b" && Lower("c") == "c"
    ensures Lower("a.md") == "a.md" && Lower("b.MD") == "b.md" && Lower("c.md") == "c.md"
  {
    assert Lower("b.MD")[0] == 'b' && Lower("b.MD")[1] == '.' && Lower("b.MD")[2] == 'm' && Lower("b.MD")[3] == 'd';
  }

  lemma Stems()
    ensures TargetOf(ASCII, Plain("a")) == "a" && TargetOf(ASCII, Plain("b")) == "b"
            && TargetOf(ASCII, Plain("c")) == "c"
    ensures Cleaned(Plain("b")) == "b" && Cleaned(Plain("c")) == "c"
    ensures TargetOf(ASCII, Plain("b.MD")) == "b" && Cleaned(Plain("b.MD")) == "b.MD"
    ensures TargetOf(ASCII, Plain("a.md")) == "a" && TargetOf(ASCII, Plain("c.md")) == "c"
  {
    hide TargetOf, Cleaned, Strip, Cut;
    Lowers();
    assert "b" + ".MD" == "b.MD" && "a" + ".md" == "a.md" && "c" + ".md" == "c.md";
    assert "a" + "" == "a" && "b" + "" == "b" && "c" + "" == "c";
    ReadOff("a", "");
    ReadOff("b", "");
    ReadOff("c", "");
    ReadOff("b", ".MD");
    ReadOff("a", ".md");
    ReadOff("c", ".md");
  }

  /** A link that reached a page of a wiki, and after a merge reaches neither that page nor its successor, though
      moved stems belong to no other page. */
  ghost predicate MergeBreaks(w: Wiki, selected: seq<Path>, link: Link, p: Path) {
    && Merging(w, selected) && OwnStems(ASCII, w, selected[1..], selected) && Reaches(ASCII, w, link, p)
    && !Reaches(ASCII, MergedWiki(ASCII, w, selected), RewriteLink(ASCII, MergeStems(ASCII, selected), link),
                Successor(selected, p))
  }

  lemma MergeOfTwo(w: Wiki, a: Path, b: Path, link: Link, p: Path)
    requires Merging(w, [a, b]) && OwnStems(ASCII, w, [b], [a, b]) && Reaches(ASCII, w, link, p)
    requires var rewrites := Lower(Cleaned(link)) == Lower(b.stem) && a.stem != Cleaned(link);
             if !rewrites then p == b
             else if p in [a, b] then !(ReadsBack(ASCII, a.stem) && Sole(ASCII, w, a.stem, [a, b]))
             else TargetOf(ASCII, Plain(a.stem)) != Lower(p.stem)
    ensures MergeBreaks(w, [a, b], link, p)
  {
    hide MergedWiki, TargetOf, Cleaned, Lower;
    var selected := [a, b];
    assert selected[1..] == [b];
    MovedIs(ASCII, [b], a.stem, ASCII.fold(Cleaned(link)));
    MergeReaches(ASCII, w, selected, link, p);
  }

  /** A suffix in upper case: the link is left behind. */
  lemma SuffixBreaksMerge()
    ensures MergeBreaks(Wikis({Entity("a"), Entity("b")}), [Entity("a"), Entity("b")], Plain("b.MD"), Entity("b"))
  {
    hide TargetOf, Cleaned;
    Lowers();
    Stems();
    MergeOfTwo(Wikis({Entity("a"), Entity("b")}), Entity("a"), Entity("b"), Plain("b.MD"), Entity("b"));
  }

  /** A survivor whose stem ends like a suffix: it is not read back off a link. */
  lemma StemBreaksMerge()
    ensures MergeBreaks(Wikis({Entity("a.md"), Entity("b")}), [Entity("a.md"), Entity("b")], Plain("b"), Entity("b"))
  {
    hide TargetOf, Cleaned;
    Lowers();
    Stems();
    assert !ReadsBack(ASCII, "a.md");
    MergeOfTwo(Wikis({Entity("a.md"), Entity("b")}), Entity("a.md"), Entity("b"), Plain("b"), Entity("b"));
  }

  /** A page outside the merge with the survivor's stem: the link reaches two pages, so none. */
  lemma NamesakeBreaksMerge()
    ensures MergeBreaks(Wikis({Entity("a"), Entity("b"), Note("a")}), [Entity("a"), Entity("b")], Plain("b"),
                        Entity("b"))
  {
    hide TargetOf, Cleaned;
    Lowers();
    Stems();
    var w := Wikis({Entity("a"), Entity("b"), Note("a")});
    assert Note("a") in w && !Sole(ASCII, w, "a", [Entity("a"), Entity("b")]);
    MergeOfTwo(w, Entity("a"), Entity("b"), Plain("b"), Entity("b"));
  }

  /** A folded page whose stem is what the rewrite reads off a link to another page. */
  lemma LookalikeBreaksMerge()
    ensures MergeBreaks(Wikis({Entity("a"), Entity("b.MD"), Entity("b")}), [Entity("a"), Entity("b.MD")], Plain("b.MD"),
                        Entity("b"))
  {
    hide TargetOf, Cleaned;
    Lowers();
    Stems();
    MergeOfTwo(Wikis({Entity("a"), Entity("b.MD"), Entity("b")}), Entity("a"), Entity("b.MD"), Plain("b.MD"),
               Entity("b"));
  }

  /** The same of a rename. */
  ghost predicate RenameBreaks(w: Wiki, p: Path, title: string, link: Link, x: Path) {
    && Renaming(ASCII, w, p, title) && OwnStems(ASCII, w, [p], [p]) && Reaches(ASCII, w, link, x)
    && !Reaches(ASCII, RenamedWiki(ASCII, w, p, title), RewriteLink(ASCII, RenameStems(ASCII, p, title), link),
                if x == p then Entity(title) else x)
  }

  lemma RenameOfOne(w: Wiki, p: Path, title: string, link: Link, x: Path)
    requires Renaming(ASCII, w, p, title) && OwnStems(ASCII, w, [p], [p]) && Reaches(ASCII, w, link, x)
    requires !RenameLeaves(ASCII, w, p, title, link, x)
    ensures RenameBreaks(w, p, title, link, x)
  {
    hide TargetOf, Cleaned, Lower, RenamedWiki, RenameLeaves;
    RenameReaches(ASCII, w, p, title, link, x);
  }

  lemma NoClaimants(w: Wiki, title: string)
    requires forall p :: p in w && IsEntity(p) ==> w[p].aliases == [] && Lower(w[p].title) != Lower(title)
    ensures Claimants(ASCII, w, ASCII.key(title)) == {}
  {
    hide Lower;
    forall p | p in w && IsEntity(p) ensures ASCII.key(title) !in NameKeys(ASCII, w[p]) {
      KeysOfOne(ASCII, w[p].title);
      assert [w[p].title] + w[p].aliases == [w[p].title];
    }
  }

  lemma SuffixBreaksRename()
    ensures RenameBreaks(Wikis({Entity("b")}), Entity("b"), "c", Plain("b.MD"), Entity("b"))
  {
    hide TargetOf, Cleaned;
    Lowers();
    Stems();
    NoClaimants(Wikis({Entity("b")}), "c");
    RenameOfOne(Wikis({Entity("b")}), Entity("b"), "c", Plain("b.MD"), Entity("b"));
  }

  lemma StemBreaksRename()
    ensures RenameBreaks(Wikis({Entity("b")}), Entity("b"), "c.md", Plain("b"), Entity("b"))
  {
    hide TargetOf, Cleaned;
    Lowers();
    Stems();
    assert !ReadsBack(ASCII, "c.md");
    NoClaimants(Wikis({Entity("b")}), "c.md");
    RenameOfOne(Wikis({Entity("b")}), Entity("b"), "c.md", Plain("b"), Entity("b"));
  }

  /** A page elsewhere with the new stem: a link to the renamed page reaches two pages, and so does one to it. */
  lemma NamesakeBreaksRename()
    ensures RenameBreaks(Wikis({Entity("b"), Note("c")}), Entity("b"), "c", Plain("b"), Entity("b"))
    ensures RenameBreaks(Wikis({Entity("b"), Note("c")}), Entity("b"), "c", Plain("c"), Note("c"))
  {
    hide TargetOf, Cleaned;
    Lowers();
    Stems();
    var w := Wikis({Entity("b"), Note("c")});
    NoClaimants(w, "c");
    assert Note("c") in w && !Sole(ASCII, w, "c", [Entity("b")]);
    RenameOfOne(w, Entity("b"), "c", Plain("b"), Entity("b"));
    RenameOfOne(w, Entity("b"), "c", Plain("c"), Note("c"));
  }

  lemma LookalikeBreaksRename()
    ensures RenameBreaks(Wikis({Entity("b.MD"), Entity("b")}), Entity("b.MD"), "c", Plain("b.MD"), Entity("b"))
  {
    hide TargetOf, Cleaned;
    Lowers();
    Stems();
    NoClaimants(Wikis({Entity("b.MD"), Entity("b")}), "c");
    RenameOfOne(Wikis({Entity("b.MD"), Entity("b")}), Entity("b.MD"), "c", Plain("b.MD"), Entity("b"));
  }

  lemma SameCleaned(a: Link, b: Link)
    requires a.name == b.name
    ensures Cleaned(a) == Cleaned(b)
  {
  }

  /** A rewritten link with an anchor and no label no longer shows its anchor. */
  lemma AnchorNotShown()
    ensures var link := Link(false, "b", true, "part", false, "");
            var r := RewriteLink(ASCII, map["b" := "c"], link);
            r == Link(false, "c", true, "part", true, "b") && Shown(link) == "b#part" && Shown(r) == "b"
  {
    hide TargetOf, Cleaned, Lower;
    var link := Link(false, "b", true, "part", false, "");
    Lowers();
    Stems();
    SameCleaned(link, Plain("b"));
    assert ASCII.fold("b") == "b";
    assert "b" + ("#" + "part") == "b#part";
  }
}
