/** Entity pages and the wikilinks between pages: names, what a link reaches, and how links follow a moved page. */
module EntityGraph {
  import opened Options
  import opened Text

  /** `[[name#anchor|label]]`, with a `!` before it when it embeds. */
  datatype Link = Link(embed: bool, name: string, mark: bool, anchor: string, labelled: bool, caption: string)

  datatype Segment = Prose(text: string) | Wikilink(link: Link)

  type Body = seq<Segment>

  datatype Path = Path(folder: string, stem: string)

  const ENTITIES := "wiki/entities"

  datatype Page = Page(title: string, aliases: seq<string>, kind: string, acl: string, sources: seq<string>, body: Body)

  type Wiki = map<Path, Page>

  /** What the operations know of text: the key names are compared by, the two case foldings, the stem a
      title is stored under, the white space of a title made single, and a body's text without its edges. */
  datatype Names = Names(key: string -> string, fold: string -> string, lower: string -> string,
                         stem: string -> Option<string>, squash: string -> string,
                         trim: Body -> Body, tail: Body -> Body, path: string -> Option<Path>)

  const SUFFIX := ".md"

  predicate EndsWith(t: string, suffix: string) { |t| >= |suffix| && t[|t| - |suffix|..] == suffix }

  function Cut(t: string, n: nat): string { if n <= |t| then t[..|t| - n] else "" }

  // ---- what a link reaches --------------------------------------------------------------------------

  /** The stem the index reads off a link, in lower case. */
  function TargetOf(n: Names, link: Link): string {
    var name := Strip(link.name);
    if EndsWith(n.lower(name), SUFFIX) then n.lower(Cut(name, 3)) else n.lower(name)
  }

  /** A link reaches the one page with its stem; two pages with it, and it reaches none. */
  ghost predicate Reaches(n: Names, w: Wiki, link: Link, p: Path) {
    && TargetOf(n, link) != "" && p in w && n.lower(p.stem) == TargetOf(n, link)
    && forall q :: q in w && n.lower(q.stem) == TargetOf(n, link) ==> q == p
  }

  // ---- rewriting links ------------------------------------------------------------------------------

  /** The name the rewrite reads off a link. */
  function Cleaned(link: Link): string {
    var name := Strip(link.name);
    if EndsWith(name, SUFFIX) then Cut(name, 3) else name
  }

  /** `stems` maps folded old stems to new stems. */
  function RewriteLink(n: Names, stems: map<string, string>, link: Link): Link {
    var cleaned := Cleaned(link);
    var key := n.fold(cleaned);
    if key !in stems || stems[key] == cleaned then link
    else Link(link.embed, stems[key], link.mark, link.anchor, true, if link.labelled then link.caption else cleaned)
  }

  function RewriteSegment(n: Names, stems: map<string, string>, s: Segment): Segment {
    if s.Wikilink? then Wikilink(RewriteLink(n, stems, s.link)) else s
  }

  function RewriteBody(n: Names, stems: map<string, string>, body: Body): (r: Body)
    ensures |r| == |body| && forall k :: 0 <= k < |r| ==> r[k] == RewriteSegment(n, stems, body[k])
  {
    if body == [] then [] else RewriteBody(n, stems, body[..|body| - 1]) + [RewriteSegment(n, stems, body[|body| - 1])]
  }

  function RewritePage(n: Names, stems: map<string, string>, page: Page): Page {
    page.(body := RewriteBody(n, stems, page.body))
  }

  function RewriteWiki(n: Names, stems: map<string, string>, w: Wiki): (r: Wiki)
    ensures r.Keys == w.Keys
  {
    map p | p in w :: RewritePage(n, stems, w[p])
  }

  /** What a reader sees of a link. */
  function Shown(link: Link): string {
    if link.labelled then link.caption else link.name + if link.mark then "#" + link.anchor else ""
  }

  /** A rewritten link keeps its text exactly when it had a label, or had no anchor and was written without
      white space at its edges or a suffix. */
  lemma TextKept(n: Names, stems: map<string, string>, link: Link)
    requires RewriteLink(n, stems, link) != link
    ensures Shown(RewriteLink(n, stems, link)) == Shown(link)
            <==> link.labelled || (!link.mark && link.name == Cleaned(link))
    ensures var r := RewriteLink(n, stems, link);
            r.embed == link.embed && r.mark == link.mark && r.anchor == link.anchor
              && (link.labelled ==> r.caption == link.caption)
  {
    CleanedShorter(link);
    assert !link.labelled && link.mark ==> |Shown(link)| == |link.name| + 1 + |link.anchor|;
  }

  lemma {:induction false} StripShorter(t: string)
    ensures |DropSpaces(t)| <= |t| && |TrimEnd(t)| <= |t|
  {
    if t != [] {
      StripShorter(t[1..]);
      StripShorter(t[..|t| - 1]);
    }
  }

  lemma CleanedShorter(link: Link)
    ensures |Cleaned(link)| <= |link.name|
  {
    StripShorter(link.name);
    StripShorter(DropSpaces(link.name));
  }

  /** The name read off a link with just a stem in it. */
  function Plain(stem: string): Link { Link(false, stem, false, "", false, "") }

  /** The rewrite has a new stem for what it reads off the link, other than that. */
  predicate Rewrites(n: Names, stems: map<string, string>, link: Link) {
    n.fold(Cleaned(link)) in stems && stems[n.fold(Cleaned(link))] != Cleaned(link)
  }

  /** A link rewritten once more stays as it is exactly when it was not rewritten the first time, or its new
      stem is not, or only to itself. */
  lemma RewriteLinkTwice(n: Names, stems: map<string, string>, link: Link)
    ensures RewriteLink(n, stems, RewriteLink(n, stems, link)) == RewriteLink(n, stems, link) <==>
              (Rewrites(n, stems, link) ==>
                 var stem := stems[n.fold(Cleaned(link))];
                 Rewrites(n, stems, Plain(stem)) ==> stems[n.fold(Cleaned(Plain(stem)))] == stem)
  {
    if Rewrites(n, stems, link) {
      var stem := stems[n.fold(Cleaned(link))];
      assert Cleaned(RewriteLink(n, stems, link)) == Cleaned(Plain(stem));
    }
  }

  /** No new stem is rewritten to another. */
  predicate Settled(n: Names, stems: map<string, string>) {
    forall k :: k in stems && Rewrites(n, stems, Plain(stems[k])) ==>
        stems[n.fold(Cleaned(Plain(stems[k])))] == stems[k]
  }

  /** Rewriting again changes nothing more. */
  lemma RewriteTwice(n: Names, stems: map<string, string>, w: Wiki)
    requires Settled(n, stems)
    ensures RewriteWiki(n, stems, RewriteWiki(n, stems, w)) == RewriteWiki(n, stems, w)
  {
    var once := RewriteWiki(n, stems, w);
    forall p | p in w ensures RewriteBody(n, stems, once[p].body) == once[p].body {
      forall k | 0 <= k < |w[p].body| ensures RewriteSegment(n, stems, once[p].body[k]) == once[p].body[k] {
        if w[p].body[k].Wikilink? { RewriteLinkTwice(n, stems, w[p].body[k].link); }
      }
    }
  }

  // ---- links follow moved pages -----------------------------------------------------------------------

  /** A stem is read back off a link it is written in. */
  predicate ReadsBack(n: Names, stem: string) { TargetOf(n, Plain(stem)) == n.lower(stem) != "" }

  /** No page but those has a stem equal to this one in lower case. */
  ghost predicate Sole(n: Names, w: Wiki, stem: string, but: seq<Path>) {
    forall q :: q in w && q !in but ==> n.lower(q.stem) != n.lower(stem)
  }

  lemma RewrittenTarget(n: Names, stems: map<string, string>, link: Link)
    requires Rewrites(n, stems, link)
    ensures TargetOf(n, RewriteLink(n, stems, link)) == TargetOf(n, Plain(stems[n.fold(Cleaned(link))]))
  {
  }

  /** Stems equal in lower case are equal folded. */
  ghost predicate Coarser(n: Names) { forall a, b :: n.lower(a) == n.lower(b) ==> n.fold(a) == n.fold(b) }

  /** The index and the rewrite read the same name off a link: its suffix, if any, is in lower case. */
  ghost predicate PlainSuffix(n: Names, link: Link) {
    EndsWith(Strip(link.name), SUFFIX) <==> EndsWith(n.lower(Strip(link.name)), SUFFIX)
  }

  /** Then what the rewrite looks up is the stem of the page the link reaches. */
  lemma SameName(n: Names, w: Wiki, link: Link, p: Path)
    requires Coarser(n) && PlainSuffix(n, link) && Reaches(n, w, link, p)
    ensures n.lower(Cleaned(link)) == n.lower(p.stem) && n.fold(Cleaned(link)) == n.fold(p.stem)
  {
  }
}
