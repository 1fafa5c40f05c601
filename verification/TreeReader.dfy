/** Reading a committed tree: records arrive in chunks of any size, end in a zero byte, and are
    checked against limits one by one. */
module TreeReader {
  import opened Options

  newtype byte = x: int | 0 <= x < 256

  const MAX_TREE_ENTRIES := 500000
  const MAX_INDEX_ENTRIES := 250000
  const MAX_RECORD_BYTES := 16 * 1024
  const MAX_PAGE_BYTES := 50 * 1024 * 1024
  const MAX_INDEX_BYTES := 512 * 1024 * 1024

  datatype Error = TreeLimit | TreeInvalid | IndexLimit | PageLimit | TotalLimit | BlobInvalid | PageNotUtf8

  datatype Page = Page(path: string, text: string, size: nat)

  datatype Progress = Progress(pages: seq<Page>, treeEntries: nat, total: nat)

  datatype Result = Ok(p: Progress) | Err(e: Error)

  /** The decoder, the object store, and the choice of pages, none of which is part of this model. */
  datatype Repo = Repo(decode: seq<byte> -> Option<string>, blob: seq<byte> -> Option<seq<byte>>,
                       indexable: string -> bool)

  // ---- one record ------------------------------------------------------------------------------

  function Ascii(s: string): (b: seq<byte>) {
    seq(|s|, i requires 0 <= i < |s| => (s[i] as int % 256) as byte)
  }

  predicate Blank(b: byte) { 9 <= b <= 13 || b == 32 }

  /** The first position from `i` that holds `b`, or the length. */
  function Find(s: seq<byte>, b: byte, i: nat): (r: nat)
    requires i <= |s|
    ensures i <= r <= |s| && (r < |s| ==> s[r] == b)
    ensures forall k :: i <= k < r ==> s[k] != b
    decreases |s| - i
  {
    if i == |s| || s[i] == b then i else Find(s, b, i + 1)
  }

  function SkipBlanks(s: seq<byte>): (r: seq<byte>)
    ensures |r| <= |s|
  {
    if s != [] && Blank(s[0]) then SkipBlanks(s[1..]) else s
  }

  function FieldLength(s: seq<byte>): (n: nat)
    ensures n <= |s|
    ensures s != [] && !Blank(s[0]) ==> n > 0
  {
    if s == [] || Blank(s[0]) then 0 else 1 + FieldLength(s[1..])
  }

  /** The runs between white space. */
  function Fields(s: seq<byte>): seq<seq<byte>>
    decreases |s|
  {
    var t := SkipBlanks(s);
    SkipBlanksStops(s);
    if t == [] then [] else [t[..FieldLength(t)]] + Fields(t[FieldLength(t)..])
  }

  lemma SkipBlanksStops(s: seq<byte>)
    ensures SkipBlanks(s) != [] ==> !Blank(SkipBlanks(s)[0])
  {
  }

  datatype Entry = Entry(mode: seq<byte>, kind: seq<byte>, objectId: seq<byte>, path: string)

  function ParseEntry(repo: Repo, record: seq<byte>): Option<Entry> {
    var tab := Find(record, 9, 0);
    if tab == |record| then None
    else
      var fields, path := Fields(record[..tab]), repo.decode(record[tab + 1..]);
      if |fields| != 3 || path.None? then None
      else Some(Entry(fields[0], fields[1], fields[2], path.value))
  }

  predicate Indexed(repo: Repo, entry: Entry) {
    (entry.mode == Ascii("100644") || entry.mode == Ascii("100755")) && entry.kind == Ascii("blob")
      && repo.indexable(entry.path)
  }

  function Accept(repo: Repo, p: Progress, record: seq<byte>): (r: Result)
  {
    var counted := p.(treeEntries := p.treeEntries + 1);
    if counted.treeEntries > MAX_TREE_ENTRIES || |record| > MAX_RECORD_BYTES then Err(TreeLimit)
    else
      var entry := ParseEntry(repo, record);
      if entry.None? then Err(TreeInvalid)
      else if !Indexed(repo, entry.value) then Ok(counted)
      else if |p.pages| + 1 > MAX_INDEX_ENTRIES then Err(IndexLimit)
      else
        var content := repo.blob(entry.value.objectId);
        if content.None? then Err(BlobInvalid)
        else if |content.value| > MAX_PAGE_BYTES then Err(PageLimit)
        else if p.total + |content.value| > MAX_INDEX_BYTES then Err(TotalLimit)
        else
          var text := repo.decode(content.value);
          if text.None? then Err(PageNotUtf8)
          else Ok(Progress(p.pages + [Page(entry.value.path, text.value, |content.value|)],
                           counted.treeEntries, p.total + |content.value|))
  }

  // ---- the whole stream, without chunks -------------------------------------------------------------

  /** The complete records of a stream are read in order; the first error ends the reading. */
  function ReadStream(repo: Repo, p: Progress, stream: seq<byte>): (r: Result)
    decreases |stream|
  {
    var end := Find(stream, 0, 0);
    if end == |stream| then
      if stream == [] then Ok(p) else if |stream| > MAX_RECORD_BYTES then Err(TreeLimit) else Err(TreeInvalid)
    else
      match Accept(repo, p, stream[..end])
      case Err(e) => Err(e)
      case Ok(next) => ReadStream(repo, next, stream[end + 1..])
  }

  const START := Progress([], 0, 0)

  // ---- what reading a stream means ------------------------------------------------------------------

  predicate ZeroFree(r: seq<byte>) { 0 !in r }

  /** The stream these records and this unterminated tail make. */
  function Terminated(records: seq<seq<byte>>, tail: seq<byte>): seq<byte> {
    if records == [] then tail else records[0] + [0] + Terminated(records[1..], tail)
  }

  /** Reading records one by one, from the first; an error ends it. */
  function AcceptAll(repo: Repo, p: Progress, records: seq<seq<byte>>): Result
    decreases |records|
  {
    if records == [] then Ok(p)
    else
      match Accept(repo, p, records[0])
      case Err(e) => Err(e)
      case Ok(next) => AcceptAll(repo, next, records[1..])
  }

  /** However a stream is made of zero-free records and a zero-free tail, reading it accepts exactly
      those records in order, and succeeds only if all are accepted and the tail is empty. */
  lemma {:induction false} ReadIsAcceptAll(repo: Repo, p: Progress, records: seq<seq<byte>>, tail: seq<byte>)
    requires ZeroFree(tail) && forall r :: r in records ==> ZeroFree(r)
    ensures var read := ReadStream(repo, p, Terminated(records, tail));
            var accepted := AcceptAll(repo, p, records);
            read == if accepted.Err? || tail == [] then accepted
                    else if |tail| > MAX_RECORD_BYTES then Err(TreeLimit) else Err(TreeInvalid)
    decreases |records|
  {
    var stream := Terminated(records, tail);
    if records != [] {
      var r, rest := records[0], Terminated(records[1..], tail);
      FindIsLength(r, [0] + rest);
      assert stream == r + ([0] + rest) && stream[..|r|] == r && stream[|r| + 1..] == rest;
      var next := Accept(repo, p, r);
      if next.Ok? { ReadIsAcceptAll(repo, next.p, records[1..], tail); }
    } else {
      FindIsLength(tail, []);
      assert stream == tail + [];
    }
  }

  lemma FindIsLength(r: seq<byte>, rest: seq<byte>)
    requires ZeroFree(r) && (rest == [] || rest[0] == 0)
    ensures Find(r + rest, 0, 0) == |r|
  {
    var n := Find(r + rest, 0, 0);
    assert rest != [] ==> (r + rest)[|r|] == rest[0];
    if n < |r| {
      assert false;
    } else if |r| < n {
      assert false;
    }
  }

  /** Every stream is made so. */
  lemma {:induction false} StreamSplits(stream: seq<byte>) returns (records: seq<seq<byte>>, tail: seq<byte>)
    ensures stream == Terminated(records, tail) && ZeroFree(tail) && forall r :: r in records ==> ZeroFree(r)
    decreases |stream|
  {
    var end := Find(stream, 0, 0);
    if end == |stream| {
      records, tail := [], stream;
    } else {
      var more;
      more, tail := StreamSplits(stream[end + 1..]);
      records := [stream[..end]] + more;
      assert stream == stream[..end] + [0] + stream[end + 1..];
    }
  }

  // ---- totals --------------------------------------------------------------------------------------

  function SumSizes(pages: seq<Page>): nat {
    if pages == [] then 0 else SumSizes(pages[..|pages| - 1]) + pages[|pages| - 1].size
  }

  ghost predicate WithinLimits(p: Progress) {
    && |p.pages| <= p.treeEntries <= MAX_TREE_ENTRIES && |p.pages| <= MAX_INDEX_ENTRIES
    && p.total == SumSizes(p.pages) <= MAX_INDEX_BYTES
    && forall i :: 0 <= i < |p.pages| ==> p.pages[i].size <= MAX_PAGE_BYTES
  }

  lemma AcceptKeepsLimits(repo: Repo, p: Progress, record: seq<byte>)
    requires WithinLimits(p) && Accept(repo, p, record).Ok?
    ensures WithinLimits(Accept(repo, p, record).p) && p.pages <= Accept(repo, p, record).p.pages
  {
    var next := Accept(repo, p, record).p;
    if next.pages != p.pages {
      assert next.pages[..|next.pages| - 1] == p.pages;
    }
  }

  /** Every accepted reading is within every limit, its total the sum of the pages it returns. */
  lemma {:induction false} AcceptedWithinLimits(repo: Repo, p: Progress, records: seq<seq<byte>>)
    requires WithinLimits(p) && AcceptAll(repo, p, records).Ok?
    ensures WithinLimits(AcceptAll(repo, p, records).p)
    ensures p.pages <= AcceptAll(repo, p, records).p.pages
    decreases |records|
  {
    if records != [] {
      AcceptKeepsLimits(repo, p, records[0]);
      AcceptedWithinLimits(repo, Accept(repo, p, records[0]).p, records[1..]);
    }
  }

  // ---- chunks --------------------------------------------------------------------------------------

  function Concat(chunks: seq<seq<byte>>): seq<byte> {
    if chunks == [] then [] else chunks[0] + Concat(chunks[1..])
  }

  lemma {:induction false} FindInShift(a: seq<byte>, start: nat, i: nat)
    requires start <= i <= |a|
    ensures Find(a[start..], 0, i - start) == Find(a, 0, i) - start
    decreases |a| - i
  {
    if i < |a| && a[i] != 0 { FindInShift(a, start, i + 1); }
  }

  /** The reading goes on after a record unless the record failed. */
  function Then(repo: Repo, r: Result, rest: seq<byte>): Result { if r.Err? then r else ReadStream(repo, r.p, rest) }

  /** One complete record at the head of a stream. */
  lemma StreamStep(repo: Repo, p: Progress, stream: seq<byte>, n: nat)
    requires n < |stream| && stream[n] == 0 && ZeroFree(stream[..n])
    ensures ReadStream(repo, p, stream)
         == Then(repo, Accept(repo, p, stream[..n]), stream[n + 1..])
  {
    FindIsLength(stream[..n], stream[n..]);
    assert stream == stream[..n] + stream[n..];
  }

  /** A record already too long is refused whether or not its end ever arrives. */
  lemma OversizedPending(repo: Repo, p: Progress, pending: seq<byte>, rest: seq<byte>)
    requires Find(pending, 0, 0) == |pending| > MAX_RECORD_BYTES
    ensures ReadStream(repo, p, pending + rest) == Err(TreeLimit)
  {
    var stream := pending + rest;
    var end := Find(stream, 0, 0);
    if end < |pending| {
      assert false;
    }
  }

  lemma AfterRecord(records: seq<byte>, start: nat, end: nat, rest: seq<byte>)
    requires start <= end < |records|
    ensures var stream := records[start..] + rest;
            stream[..end - start] == records[start..end] && stream[end - start] == records[end]
            && stream[end - start + 1..] == records[end + 1..] + rest
  {
  }

  lemma StreamStepAt(repo: Repo, p: Progress, stream: seq<byte>, n: nat, record: seq<byte>, rest: seq<byte>)
    requires n < |stream| && stream[n] == 0 && ZeroFree(record) && stream[..n] == record && stream[n + 1..] == rest
    ensures ReadStream(repo, p, stream)
         == Then(repo, Accept(repo, p, record), rest)
  {
    StreamStep(repo, p, stream, n);
  }

  lemma FindGives(records: seq<byte>, start: nat, end: nat)
    requires start <= end < |records| && end == Find(records, 0, start)
    ensures records[end] == 0 && ZeroFree(records[start..end])
  {
  }

  /** The next record of those not yet read. */
  lemma RecordStep(repo: Repo, p: Progress, records: seq<byte>, start: nat, end: nat, rest: seq<byte>)
    requires start <= end < |records| && end == Find(records, 0, start)
    ensures ReadStream(repo, p, records[start..] + rest)
         == Then(repo, Accept(repo, p, records[start..end]), records[end + 1..] + rest)
  {
    AfterRecord(records, start, end, rest);
    FindGives(records, start, end);
    StreamStepAt(repo, p, records[start..] + rest, end - start, records[start..end], records[end + 1..] + rest);
  }

  /** Every complete record of `records` is read; what is left has no zero byte. */
  method ReadRecords(repo: Repo, p: Progress, records: seq<byte>, ghost rest: seq<byte>)
    returns (r: Result, pending: seq<byte>)
    ensures Find(pending, 0, 0) == |pending|
    ensures ReadStream(repo, p, records + rest) == Then(repo, r, pending + rest)
  {
    var start, progress := 0, p;
    ghost var goal := ReadStream(repo, p, records + rest);
    assert records[start..] == records;
    var end := Find(records, 0, start);
    while end < |records|
      invariant start <= end <= |records| && end == Find(records, 0, start)
      invariant ReadStream(repo, progress, records[start..] + rest) == goal
      decreases |records| - start
    {
      RecordStep(repo, progress, records, start, end, rest);
      var accepted := Accept(repo, progress, records[start..end]);
      if accepted.Err? {
        return accepted, [];
      }
      progress, start := accepted.p, end + 1;
      end := Find(records, 0, start);
    }
    FindInShift(records, start, start);
    r, pending := Ok(progress), records[start..];
  }

  /** The reader sees the stream, not its chunks: for every way of cutting it the result is the same. */
  method ReadChunks(repo: Repo, chunks: seq<seq<byte>>) returns (r: Result)
    ensures r == ReadStream(repo, START, Concat(chunks))
  {
    var pending: seq<byte> := [];
    var progress := START;
    var i := 0;
    ghost var goal := ReadStream(repo, START, Concat(chunks));
    assert chunks[i..] == chunks && pending + Concat(chunks[i..]) == Concat(chunks);
    while i < |chunks|
      invariant i <= |chunks| && Find(pending, 0, 0) == |pending| <= MAX_RECORD_BYTES
      invariant ReadStream(repo, progress, pending + Concat(chunks[i..])) == goal
    {
      ghost var rest := Concat(chunks[i + 1..]);
      assert chunks[i..][1..] == chunks[i + 1..];
      assert pending + Concat(chunks[i..]) == (pending + chunks[i]) + rest;
      var read, left := ReadRecords(repo, progress, pending + chunks[i], rest);
      if read.Err? {
        return read;
      }
      progress, pending := read.p, left;
      if |pending| > MAX_RECORD_BYTES {
        OversizedPending(repo, progress, pending, rest);
        return Err(TreeLimit);
      }
      i := i + 1;
    }
    assert pending + Concat(chunks[i..]) == pending;
    r := if pending != [] then Err(TreeInvalid) else Ok(progress);
  }
}
