/** What reading a committed tree returns: the pages its records list, and when it refuses them. */
module TreeLaws {
  import opened Options
  import opened TreeReader

  // ---- how a record is written ----------------------------------------------------------------------------

  const TAB: byte := 9

  predicate AllBlank(s: seq<byte>) { forall k :: 0 <= k < |s| ==> Blank(s[k]) }

  predicate Field(s: seq<byte>) { s != [] && forall k :: 0 <= k < |s| ==> !Blank(s[k]) }

  /** Three fields with white space around and between them, a tab, and the bytes of a path. */
  predicate EntryText(record: seq<byte>, gaps: seq<seq<byte>>, fields: seq<seq<byte>>, path: seq<byte>) {
    && |fields| == 3 && |gaps| == 4 && (forall f :: f in fields ==> Field(f))
    && (forall g :: g in gaps ==> AllBlank(g) && TAB !in g) && gaps[1] != [] && gaps[2] != []
    && record == gaps[0] + fields[0] + gaps[1] + fields[1] + gaps[2] + fields[2] + gaps[3] + [TAB] + path
  }

  lemma {:induction false} SkipsBlanks(a: seq<byte>, b: seq<byte>)
    requires AllBlank(a) && (b == [] || !Blank(b[0]))
    ensures SkipBlanks(a + b) == b
  {
    if a == [] {
      assert a + b == b;
    } else {
      SkipsBlanks(a[1..], b);
      assert (a + b)[1..] == a[1..] + b;
    }
  }

  lemma {:induction false} LengthOfField(a: seq<byte>, b: seq<byte>)
    requires (forall k :: 0 <= k < |a| ==> !Blank(a[k])) && (b == [] || Blank(b[0]))
    ensures FieldLength(a + b) == |a|
  {
    if a == [] {
      assert a + b == b;
    } else {
      LengthOfField(a[1..], b);
      assert (a + b)[1..] == a[1..] + b;
    }
  }

  lemma OneField(gap: seq<byte>, field: seq<byte>, rest: seq<byte>)
    requires AllBlank(gap) && Field(field) && (rest == [] || Blank(rest[0]))
    ensures Fields(gap + field + rest) == [field] + Fields(rest)
  {
    assert gap + field + rest == gap + (field + rest);
    SkipsBlanks(gap, field + rest);
    LengthOfField(field, rest);
    assert (field + rest)[..|field|] == field && (field + rest)[|field|..] == rest;
  }

  lemma NoField(gap: seq<byte>)
    requires AllBlank(gap)
    ensures Fields(gap) == []
  {
    SkipsBlanks(gap, []);
    assert gap + [] == gap;
  }

  lemma FirstTab(before: seq<byte>, path: seq<byte>)
    requires TAB !in before
    ensures Find(before + [TAB] + path, TAB, 0) == |before|
  {
    var record := before + [TAB] + path;
    var n := Find(record, TAB, 0);
    assert record[|before|] == TAB;
    assert forall k :: 0 <= k < |before| ==> record[k] == before[k];
  }

  /** The three fields of a record as it is written, and its path, are read off it. */
  lemma EntryReads(repo: Repo, record: seq<byte>, gaps: seq<seq<byte>>, fields: seq<seq<byte>>, path: seq<byte>)
    requires EntryText(record, gaps, fields, path)
    ensures ParseEntry(repo, record) ==
            if repo.decode(path).None? then None
            else Some(Entry(fields[0], fields[1], fields[2], repo.decode(path).value))
  {
    hide Fields, Find;
    assert fields[0] in fields && fields[1] in fields && fields[2] in fields;
    assert gaps[0] in gaps && gaps[1] in gaps && gaps[2] in gaps && gaps[3] in gaps;
    var two := gaps[2] + fields[2] + gaps[3];
    var one := gaps[1] + fields[1] + two;
    var before := gaps[0] + fields[0] + one;
    assert record == before + [TAB] + path;
    assert two[0] == gaps[2][0] && one[0] == gaps[1][0];
    OneField(gaps[0], fields[0], one);
    OneField(gaps[1], fields[1], two);
    OneField(gaps[2], fields[2], gaps[3]);
    NoField(gaps[3]);
    NoTabs(gaps, fields);
    FirstTab(before, path);
    assert record[..|before|] == before && record[|before| + 1..] == path;
  }

  lemma NoTabs(gaps: seq<seq<byte>>, fields: seq<seq<byte>>)
    requires forall f :: f in fields ==> Field(f)
    ensures forall f :: f in fields ==> TAB !in f
  {
    forall f | f in fields ensures TAB !in f { assert Field(f) && Blank(TAB); }
  }

  lemma {:induction false} SkippedAre(s: seq<byte>) returns (n: nat)
    ensures n <= |s| && SkipBlanks(s) == s[n..] && AllBlank(s[..n]) && (n < |s| ==> !Blank(s[n]))
  {
    n := 0;
    if s != [] && Blank(s[0]) {
      n := SkippedAre(s[1..]);
      n := n + 1;
      assert forall k :: 0 < k < n ==> s[k] == s[1..][..n - 1][k - 1];
    }
  }

  lemma {:induction false} FieldIs(s: seq<byte>)
    ensures var n := FieldLength(s);
            && (forall k :: 0 <= k < n ==> !Blank(s[k])) && (n < |s| ==> Blank(s[n]))
  {
    if s != [] && !Blank(s[0]) {
      FieldIs(s[1..]);
      assert forall k :: 0 < k < FieldLength(s) ==> s[k] == s[1..][k - 1];
    }
  }

  lemma TakeField(s: seq<byte>) returns (gap: seq<byte>, field: seq<byte>, rest: seq<byte>)
    requires Fields(s) != []
    ensures s == gap + field + rest && AllBlank(gap) && Field(field) && (rest == [] || Blank(rest[0]))
    ensures Fields(s) == [field] + Fields(rest)
  {
    hide SkipBlanks, FieldLength;
    var n := SkippedAre(s);
    var t := SkipBlanks(s);
    FieldIs(t);
    var m := FieldLength(t);
    gap, field, rest := s[..n], t[..m], t[m..];
    assert s == gap + t && t == field + rest;
  }

  lemma NothingLeft(s: seq<byte>)
    requires Fields(s) == []
    ensures AllBlank(s)
  {
    var n := SkippedAre(s);
    assert n == |s| && s[..n] == s;
  }

  /** And nothing else is an entry. */
  lemma EntryIsWritten(repo: Repo, record: seq<byte>)
    returns (gaps: seq<seq<byte>>, fields: seq<seq<byte>>, path: seq<byte>)
    requires ParseEntry(repo, record).Some?
    ensures EntryText(record, gaps, fields, path)
  {
    hide Fields, Find;
    var tab := Find(record, TAB, 0);
    var before := record[..tab];
    path := record[tab + 1..];
    var g0, f0, one := TakeField(before);
    assert ([f0] + Fields(one))[1..] == Fields(one);
    var g1, f1, two := TakeField(one);
    assert ([f1] + Fields(two))[1..] == Fields(two);
    var g2, f2, g3 := TakeField(two);
    assert ([f2] + Fields(g3))[1..] == Fields(g3);
    NothingLeft(g3);
    gaps, fields := [g0, g1, g2, g3], [f0, f1, f2];
    assert record == before + [TAB] + path;
    Flat(g0, f0, g1, f1, g2, f2, g3);
    assert TAB !in before;
    assert (forall x :: x in g0 || x in g1 || x in g2 || x in g3 ==> x in before);
  }

  lemma Flat(a: seq<byte>, b: seq<byte>, c: seq<byte>, d: seq<byte>, e: seq<byte>, f: seq<byte>, g: seq<byte>)
    ensures a + b + (c + d + (e + f + g)) == a + b + c + d + e + f + g
  {
  }

  // ---- what is read -----------------------------------------------------------------------------------------

  /** A record lists a page: a regular file, executable or not, that is to be indexed. */
  predicate IsPage(repo: Repo, record: seq<byte>) {
    var e := ParseEntry(repo, record);
    && e.Some? && e.value.mode in {Ascii("100644"), Ascii("100755")} && e.value.kind == Ascii("blob")
    && repo.indexable(e.value.path)
  }

  /** The page a record lists, if it does and its object is there and holds text. */
  function PageOf(repo: Repo, record: seq<byte>): Option<Page> {
    if !IsPage(repo, record) then None
    else
      var e := ParseEntry(repo, record).value;
      var content := repo.blob(e.objectId);
      if content.None? || repo.decode(content.value).None? then None
      else Some(Page(e.path, repo.decode(content.value).value, |content.value|))
  }

  /** The pages the records list, in order. */
  function PagesOf(repo: Repo, records: seq<seq<byte>>): seq<Page> {
    if records == [] then []
    else
      var page := PageOf(repo, records[0]);
      (if page.Some? then [page.value] else []) + PagesOf(repo, records[1..])
  }

  function BytesOf(pages: seq<Page>): nat { if pages == [] then 0 else pages[0].size + BytesOf(pages[1..]) }

  /** A record that is within its limit and is an entry, the page of which, if it lists one, is there, is text, and is
      within its own. */
  predicate RecordOk(repo: Repo, record: seq<byte>) {
    && |record| <= MAX_RECORD_BYTES && ParseEntry(repo, record).Some?
    && (IsPage(repo, record) ==> PageOf(repo, record).Some? && PageOf(repo, record).value.size <= MAX_PAGE_BYTES)
  }

  /** All records are good, and with what was read before there are not too many, nor too many pages or bytes. */
  predicate AllOk(repo: Repo, p: Progress, records: seq<seq<byte>>) {
    && (forall r :: r in records ==> RecordOk(repo, r)) && p.treeEntries + |records| <= MAX_TREE_ENTRIES
    && |p.pages| + |PagesOf(repo, records)| <= MAX_INDEX_ENTRIES
    && p.total + BytesOf(PagesOf(repo, records)) <= MAX_INDEX_BYTES
  }

  lemma AcceptsOne(repo: Repo, p: Progress, record: seq<byte>)
    requires p.treeEntries <= MAX_TREE_ENTRIES && |p.pages| <= MAX_INDEX_ENTRIES && p.total <= MAX_INDEX_BYTES
    ensures var page := PageOf(repo, record);
            var pages := if page.Some? then [page.value] else [];
            var size := if page.Some? then page.value.size else 0;
            Accept(repo, p, record) ==
            if RecordOk(repo, record) && p.treeEntries + 1 <= MAX_TREE_ENTRIES
               && |p.pages| + |pages| <= MAX_INDEX_ENTRIES && p.total + size <= MAX_INDEX_BYTES
            then Ok(Progress(p.pages + pages, p.treeEntries + 1, p.total + size)) else Accept(repo, p, record)
    ensures Accept(repo, p, record).Ok? ==>
              RecordOk(repo, record) && p.treeEntries + 1 <= MAX_TREE_ENTRIES
              && var page := PageOf(repo, record);
                 page.Some? ==> |p.pages| + 1 <= MAX_INDEX_ENTRIES && p.total + page.value.size <= MAX_INDEX_BYTES
  {
    hide ParseEntry;
    assert p.pages + [] == p.pages;
  }

  lemma NoPages(repo: Repo)
    ensures PagesOf(repo, []) == [] && BytesOf([]) == 0
  {
  }

  lemma PagesMore(repo: Repo, records: seq<seq<byte>>)
    requires records != []
    ensures var page, rest := PageOf(repo, records[0]), PagesOf(repo, records[1..]);
            && PagesOf(repo, records) == (if page.Some? then [page.value] else []) + rest
            && BytesOf(PagesOf(repo, records)) == (if page.Some? then page.value.size else 0) + BytesOf(rest)
  {
    hide PageOf;
    var page := PageOf(repo, records[0]);
    BytesMore(if page.Some? then [page.value] else [], PagesOf(repo, records[1..]));
  }

  lemma Onto(a: seq<Page>, b: seq<Page>, c: seq<Page>)
    ensures a + b + c == a + (b + c)
  {
  }

  lemma BytesMore(a: seq<Page>, b: seq<Page>)
    requires |a| <= 1
    ensures BytesOf(a + b) == (if a == [] then 0 else a[0].size) + BytesOf(b)
  {
    if a == [] { assert a + b == b; } else { assert (a + b)[1..] == b; }
  }

  /** Exactly when records are accepted, and what is then returned: the page of every record that lists one, in order,
      with its path, its text and its size, and nothing else. */
  lemma {:induction false} AcceptsExactly(repo: Repo, p: Progress, records: seq<seq<byte>>)
    requires p.treeEntries <= MAX_TREE_ENTRIES && |p.pages| <= MAX_INDEX_ENTRIES && p.total <= MAX_INDEX_BYTES
    ensures AcceptAll(repo, p, records).Ok? <==> AllOk(repo, p, records)
    ensures AcceptAll(repo, p, records).Ok? ==>
              var pages := PagesOf(repo, records);
              AcceptAll(repo, p, records).p ==
              Progress(p.pages + pages, p.treeEntries + |records|, p.total + BytesOf(pages))
    decreases |records|
  {
    hide RecordOk, PageOf, Accept, BytesOf, PagesOf;
    if records == [] {
      NoPages(repo);
      assert p.pages + [] == p.pages;
    } else {
      var r, rest := records[0], records[1..];
      var pages := if PageOf(repo, r).Some? then [PageOf(repo, r).value] else [];
      AcceptsOne(repo, p, r);
      PagesMore(repo, records);
      assert forall x :: x in records <==> x == r || x in rest;
      var next := Accept(repo, p, r);
      if next.Ok? {
        AcceptsExactly(repo, next.p, rest);
        Onto(p.pages, pages, PagesOf(repo, rest));
      }
    }
  }

  /** The whole reading: a stream is accepted exactly when it is records each ended by a zero byte, all of which are
      good and within the limits; and then its pages are those the records list. */
  lemma StreamExactly(repo: Repo, records: seq<seq<byte>>, tail: seq<byte>)
    requires ZeroFree(tail) && forall r :: r in records ==> ZeroFree(r)
    ensures var read := ReadStream(repo, START, Terminated(records, tail));
            && (read.Ok? <==> tail == [] && AllOk(repo, START, records))
            && (read.Ok? ==> read.p.pages == PagesOf(repo, records))
  {
    ReadIsAcceptAll(repo, START, records, tail);
    AcceptsExactly(repo, START, records);
    assert [] + PagesOf(repo, records) == PagesOf(repo, records);
  }
}
