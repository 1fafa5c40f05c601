/** Embedding the pages of the index: the cache first, every distinct text once, and only the entity
    pages the model refuses whole are cut. */
module Embedding {
  import opened Text
  import opened Fragmenter
  import opened LineCutter

  datatype Kind = Entity | Source | Other

  datatype Row = Row(path: string, title: string, body: string, kind: Kind)

  /** What the embedding model answers for one text: a vector, a refusal (status 400), or another error. */
  datatype Answer<+V> = Vector(v: V) | Refusal | Failure

  datatype Piece = Piece(path: string, kind: Kind, text: string)

  datatype Outcome<H, V> = Embedded(pieces: seq<Piece>, cached: set<H>, vectors: map<H, V>) | Raised

  /** The fragments of one stored page: an entity page whole unless it is cut. */
  function PiecesOf(row: Row, cut: bool): (f: seq<Fragment>)
  {
    if row.body == "" then []
    else if row.kind == Entity && !cut then [Fragment(0, 0, |row.body|, "", row.body)]
    else Fragments(row.body, row.kind == Source)
  }

  function PageRows(row: Row, cut: bool): (pieces: seq<Piece>) {
    var f := PiecesOf(row, cut);
    seq(|f|, k requires 0 <= k < |f| => Piece(row.path, row.kind, EmbedText(row.title, f[k])))
  }

  function PageFragments(rows: seq<Row>, cut: set<string>): (pieces: seq<Piece>) {
    if rows == [] then []
    else PageFragments(rows[..|rows| - 1], cut) + PageRows(rows[|rows| - 1], rows[|rows| - 1].path in cut)
  }

  function Hashes<H>(pieces: seq<Piece>, hash: string -> H): set<H> {
    set p | p in pieces :: hash(p.text)
  }

  predicate Large(p: Piece) { p.kind == Entity && Size(p.text) > WHOLE_SAFE_BYTES }

  /** The entity pages the model refuses whole. */
  function RefusedPaths<H, V>(pieces: seq<Piece>, cached: set<H>, hash: string -> H, embed: string -> Answer<V>):
      set<string> {
    set p | p in pieces && Large(p) && hash(p.text) !in cached && embed(p.text).Refusal? :: p.path
  }

  /** A text that is not an uncut large entity page is within what the model always takes. */
  lemma RowFits(row: Row, cut: bool, p: Piece)
    requires p in PageRows(row, cut)
    ensures p.path == row.path && p.kind == row.kind
    ensures Size(p.text) <= WHOLE_SAFE_BYTES || (row.kind == Entity && !cut)
  {
    var f := PiecesOf(row, cut);
    var k :| 0 <= k < |f| && p == Piece(row.path, row.kind, EmbedText(row.title, f[k]));
    if row.kind != Entity || cut { EmbedTextFits(row.title, row.body, row.kind == Source, k); }
  }

  lemma {:induction false} PieceFits(rows: seq<Row>, cut: set<string>, p: Piece)
    requires p in PageFragments(rows, cut) && Size(p.text) > WHOLE_SAFE_BYTES
    ensures Large(p) && p.path !in cut && p in PageFragments(rows, {})
  {
    var n := |rows| - 1;
    if p in PageFragments(rows[..n], cut) {
      PieceFits(rows[..n], cut, p);
    } else {
      RowFits(rows[n], rows[n].path in cut, p);
    }
  }

  /** The texts of the final batch, one for each hash that has no vector yet, in order. */
  function Missing<H>(pieces: seq<Piece>, known: set<H>, hash: string -> H): (texts: seq<string>)
  {
    if pieces == [] then []
    else
      var p := pieces[0];
      if hash(p.text) in known then Missing(pieces[1..], known, hash)
      else [p.text] + Missing(pieces[1..], known + {hash(p.text)}, hash)
  }

  /** Distinct texts of the pieces, with hashes not known. */
  predicate AreNew<H(!new)>(texts: seq<string>, known: set<H>, hash: string -> H) {
    && (forall i :: 0 <= i < |texts| ==> hash(texts[i]) !in known)
    && (forall i, j :: 0 <= i < j < |texts| ==> hash(texts[i]) != hash(texts[j]))
  }

  predicate HasHash<H(==)>(texts: seq<string>, hash: string -> H, h: H) {
    exists i :: 0 <= i < |texts| && hash(texts[i]) == h
  }

  predicate HasText(pieces: seq<Piece>, t: string) { exists p :: p in pieces && p.text == t }

  lemma {:induction false} MissingFacts<H(!new)>(pieces: seq<Piece>, known: set<H>, hash: string -> H)
    ensures AreNew(Missing(pieces, known, hash), known, hash)
    ensures forall t :: t in Missing(pieces, known, hash) ==> HasText(pieces, t)
  {
    if pieces != [] {
      var p, rest := pieces[0], pieces[1..];
      MissingFacts(rest, if hash(p.text) in known then known else known + {hash(p.text)}, hash);
      forall t | t in Missing(pieces, known, hash) ensures HasText(pieces, t) {
        if t != p.text {
          var q :| q in rest && q.text == t;
          assert q in pieces;
        }
      }
    }
  }

  lemma {:induction false} MissingCovers<H(!new)>(pieces: seq<Piece>, known: set<H>, hash: string -> H, p: Piece)
    requires p in pieces
    ensures hash(p.text) in known || HasHash(Missing(pieces, known, hash), hash, hash(p.text))
  {
    var first, rest := pieces[0], pieces[1..];
    var texts := Missing(pieces, known, hash);
    if hash(first.text) in known {
      if p != first { MissingCovers(rest, known, hash, p); }
    } else {
      var more := Missing(rest, known + {hash(first.text)}, hash);
      assert texts == [first.text] + more;
      assert hash(texts[0]) == hash(first.text);
      if hash(p.text) != hash(first.text) {
        MissingCovers(rest, known + {hash(first.text)}, hash, p);
        if hash(p.text) !in known {
          var i :| 0 <= i < |more| && hash(more[i]) == hash(p.text);
          assert texts[i + 1] == more[i];
        }
      }
    }
  }

  /** Every vector kept is the model's own for a text with that hash. */
  ghost predicate Faithful<H(!new), V(!new)>(vectors: map<H, V>, pieces: seq<Piece>, hash: string -> H,
                                             embed: string -> Answer<V>) {
    forall h :: h in vectors ==> exists p :: p in pieces && hash(p.text) == h && embed(p.text) == Vector(vectors[h])
  }

  ghost predicate Injective<H(!new)>(hash: string -> H) {
    forall x, y :: hash(x) == hash(y) ==> x == y
  }

  // ---- the requests of the first round ----------------------------------------------------------------

  predicate Asks<H>(p: Piece, cached: set<H>, hash: string -> H) { Large(p) && hash(p.text) !in cached }

  /** The texts sent alone, in order: of the large pages without a cached vector each one whose text has no vector
      from a request before it; and none after a request that fails. */
  function Requests<H, V>(pieces: seq<Piece>, cached: set<H>, hash: string -> H, embed: string -> Answer<V>):
      seq<string> {
    if pieces == [] then []
    else
      var before, p := Requests(pieces[..|pieces| - 1], cached, hash, embed), pieces[|pieces| - 1];
      if Fails(before, embed) || !Asks(p, cached, hash) || (p.text in before && embed(p.text).Vector?) then before
      else before + [p.text]
  }

  predicate Fails<V>(sent: seq<string>, embed: string -> Answer<V>) { exists t :: t in sent && embed(t).Failure? }

  /** How many large pages without a cached vector have this text. */
  function Asking<H>(pieces: seq<Piece>, cached: set<H>, hash: string -> H, t: string): nat {
    if pieces == [] then 0
    else
      var p := pieces[|pieces| - 1];
      Asking(pieces[..|pieces| - 1], cached, hash, t) + if Asks(p, cached, hash) && p.text == t then 1 else 0
  }

  lemma FailsMore<V>(sent: seq<string>, t: string, embed: string -> Answer<V>)
    ensures Fails(sent + [t], embed) <==> Fails(sent, embed) || embed(t).Failure?
  {
    if Fails(sent, embed) {
      var u :| u in sent && embed(u).Failure?;
      assert u in sent + [t];
    }
    assert t in sent + [t];
  }

  /** When none fails, a text is sent once, if it has a vector, however many pages have it, and once for each of
      them if the model refuses it. */
  lemma {:induction false} RequestsOf<H, V>(pieces: seq<Piece>, cached: set<H>, hash: string -> H,
                                            embed: string -> Answer<V>, t: string)
    requires !Fails(Requests(pieces, cached, hash, embed), embed)
    ensures var n := Asking(pieces, cached, hash, t);
            multiset(Requests(pieces, cached, hash, embed))[t] == if embed(t).Refusal? then n else Min(n, 1)
    ensures t in Requests(pieces, cached, hash, embed) <==> Asking(pieces, cached, hash, t) > 0
  {
    if pieces != [] {
      var n := |pieces| - 1;
      var before, p := Requests(pieces[..n], cached, hash, embed), pieces[n];
      FailsMore(before, p.text, embed);
      RequestsOf(pieces[..n], cached, hash, embed, t);
    }
  }

  /** A text sent is large, and its hash is one of the pieces' and not cached. */
  lemma {:induction false} RequestsAre<H, V>(pieces: seq<Piece>, cached: set<H>, hash: string -> H,
                                             embed: string -> Answer<V>, t: string)
    requires t in Requests(pieces, cached, hash, embed)
    ensures hash(t) !in cached && Size(t) > WHOLE_SAFE_BYTES && HasText(pieces, t)
  {
    var n := |pieces| - 1;
    var p := pieces[n];
    if t in Requests(pieces[..n], cached, hash, embed) {
      RequestsAre(pieces[..n], cached, hash, embed, t);
      var q :| q in pieces[..n] && q.text == t;
      assert q in pieces;
    } else {
      assert p in pieces && p.text == t;
    }
  }

  /** Nothing is sent after a request that fails. */
  lemma {:induction false} RequestsStop<H, V>(pieces: seq<Piece>, k: nat, cached: set<H>, hash: string -> H,
                                              embed: string -> Answer<V>)
    requires k <= |pieces| && Fails(Requests(pieces[..k], cached, hash, embed), embed)
    ensures Requests(pieces, cached, hash, embed) == Requests(pieces[..k], cached, hash, embed)
    decreases |pieces|
  {
    var n := |pieces| - 1;
    if k > n {
      assert pieces[..k] == pieces;
    } else {
      assert pieces[..n][..k] == pieces[..k];
      RequestsStop(pieces[..n], k, cached, hash, embed);
    }
  }

  /** Only what the cache holds of the pieces' hashes matters. */
  lemma {:induction false} RequestsAlike<H, V>(pieces: seq<Piece>, a: set<H>, b: set<H>, hash: string -> H,
                                               embed: string -> Answer<V>)
    requires forall p :: p in pieces ==> (hash(p.text) in a <==> hash(p.text) in b)
    ensures Requests(pieces, a, hash, embed) == Requests(pieces, b, hash, embed)
  {
    if pieces != [] { RequestsAlike(pieces[..|pieces| - 1], a, b, hash, embed); }
  }

  lemma NoRequests<H, V>(pieces: seq<Piece>, cached: set<H>, hash: string -> H, embed: string -> Answer<V>)
    ensures Requests(pieces[..0], cached, hash, embed) == [] && !Fails([], embed)
  {
  }

  lemma RequestsMore<H, V>(pieces: seq<Piece>, k: nat, cached: set<H>, hash: string -> H, embed: string -> Answer<V>)
    requires k < |pieces|
    ensures var before, p := Requests(pieces[..k], cached, hash, embed), pieces[k];
            Requests(pieces[..k + 1], cached, hash, embed) ==
            if Fails(before, embed) || !Asks(p, cached, hash) || (p.text in before && embed(p.text).Vector?) then before
            else before + [p.text]
  {
    assert pieces[..k + 1][..k] == pieces[..k];
  }

  /** The vectors there are after some requests: one for each text sent that was answered with one. */
  ghost predicate Answered<H(!new), V(!new)>(vectors: map<H, V>, sent: seq<string>, hash: string -> H,
                                             embed: string -> Answer<V>) {
    forall t :: hash(t) in vectors <==> t in sent && embed(t).Vector?
  }

  lemma AnsweredMore<H(!new), V(!new)>(vectors: map<H, V>, sent: seq<string>, hash: string -> H,
                                       embed: string -> Answer<V>, t: string)
    requires Injective(hash) && Answered(vectors, sent, hash, embed)
    ensures Answered(if embed(t).Vector? then vectors[hash(t) := embed(t).v] else vectors, sent + [t], hash, embed)
  {
  }

  /** Large entity pages, each sent alone unless its hash already has a vector. */
  method SendLarge<H(!new), V(!new)>(pieces: seq<Piece>, cached: set<H>, hash: string -> H, embed: string -> Answer<V>)
    returns (vectors: map<H, V>, refused: set<string>, sent: seq<string>, raised: bool)
    requires Injective(hash)
    ensures sent == Requests(pieces, cached, hash, embed) && (raised <==> Fails(sent, embed))
    ensures !raised ==> refused == RefusedPaths(pieces, cached, hash, embed)
    ensures !raised ==> forall p :: p in pieces && Large(p) && hash(p.text) !in cached && p.path !in refused ==>
            hash(p.text) in vectors
    ensures Faithful(vectors, pieces, hash, embed) && vectors.Keys !! cached
    ensures !raised ==> forall t :: t in sent ==> embed(t).Refusal? || hash(t) in vectors
  {
    hide Size, Requests;
    vectors, refused, sent, raised := map[], {}, [], false;
    NoRequests(pieces, cached, hash, embed);
    var k := 0;
    while k < |pieces|
      invariant k <= |pieces|
      invariant sent == Requests(pieces[..k], cached, hash, embed) && !Fails(sent, embed)
                && Answered(vectors, sent, hash, embed)
      invariant refused == RefusedPaths(pieces[..k], cached, hash, embed)
      invariant forall p :: p in pieces[..k] && Large(p) && hash(p.text) !in cached ==>
                  embed(p.text).Refusal? || hash(p.text) in vectors
      invariant Faithful(vectors, pieces, hash, embed) && vectors.Keys !! cached
    {
      var p := pieces[k];
      var h := hash(p.text);
      assert pieces[..k + 1] == pieces[..k] + [p];
      RequestsMore(pieces, k, cached, hash, embed);
      if h !in cached && h !in vectors && Large(p) {
        FailsMore(sent, p.text, embed);
        AnsweredMore(vectors, sent, hash, embed, p.text);
        sent := sent + [p.text];
        match embed(p.text)
        case Vector(v) => vectors := vectors[h := v];
        case Refusal => refused := refused + {p.path};
        case Failure =>
          raised := true;
          RequestsStop(pieces, k + 1, cached, hash, embed);
          return;
      }
      k := k + 1;
    }
    assert pieces[..k] == pieces;
  }

  /** Distinct texts of the pieces, none with a vector yet. */
  ghost predicate Sendable<H(!new)>(texts: seq<string>, pieces: seq<Piece>, done: set<H>, hash: string -> H) {
    AreNew(texts, done, hash) && forall t :: t in texts ==> HasText(pieces, t)
  }

  function TextHashes<H>(texts: seq<string>, hash: string -> H): set<H> { set t | t in texts :: hash(t) }

  lemma HashesMore<H(!new)>(texts: seq<string>, k: nat, hash: string -> H)
    requires k < |texts|
    ensures TextHashes(texts[..k + 1], hash) == TextHashes(texts[..k], hash) + {hash(texts[k])}
    ensures forall t :: t in texts[..k + 1] <==> t in texts[..k] || t == texts[k]
  {
    assert texts[..k + 1] == texts[..k] + [texts[k]];
  }

  lemma NoHashes<H(!new)>(texts: seq<string>, hash: string -> H)
    ensures TextHashes(texts[..0], hash) == {}
  {
  }

  lemma HashIsNew<H(!new)>(texts: seq<string>, k: nat, known: set<H>, hash: string -> H)
    requires AreNew(texts, known, hash) && k < |texts|
    ensures hash(texts[k]) !in known
  {
  }

  lemma StaysFaithful<H(!new), V(!new)>(vectors: map<H, V>, pieces: seq<Piece>, hash: string -> H,
                                        embed: string -> Answer<V>, p: Piece)
    requires Faithful(vectors, pieces, hash, embed) && p in pieces && embed(p.text).Vector?
    ensures Faithful(vectors[hash(p.text) := embed(p.text).v], pieces, hash, embed)
  {
  }

  /** The final batch: a vector for every text, or an error when the model refuses any of them. */
  method SendBatch<H(!new), V(!new)>(texts: seq<string>, ghost pieces: seq<Piece>, start: map<H, V>, hash: string -> H,
                                     embed: string -> Answer<V>) returns (vectors: map<H, V>, raised: bool)
    requires Faithful(start, pieces, hash, embed) && Sendable(texts, pieces, start.Keys, hash)
    ensures raised <==> exists t :: t in texts && !embed(t).Vector?
    ensures !raised ==> Faithful(vectors, pieces, hash, embed)
    ensures !raised ==> vectors.Keys == start.Keys + TextHashes(texts, hash)
    ensures !raised ==> forall h :: h in start ==> vectors[h] == start[h]
  {
    hide Size, AreNew, TextHashes;
    vectors, raised := start, false;
    assert TextHashes(texts[..0], hash) == {} by { NoHashes(texts, hash); }
    var k := 0;
    while k < |texts|
      invariant k <= |texts|
      invariant forall t :: t in texts[..k] ==> embed(t).Vector?
      invariant Faithful(vectors, pieces, hash, embed)
      invariant vectors.Keys == start.Keys + TextHashes(texts[..k], hash)
      invariant forall h :: h in start ==> vectors[h] == start[h]
    {
      var t := texts[k];
      HashesMore(texts, k, hash);
      HashIsNew(texts, k, start.Keys, hash);
      assert t in texts;
      ghost var p :| p in pieces && p.text == t;
      if !embed(t).Vector? {
        raised := true;
        return;
      }
      StaysFaithful(vectors, pieces, hash, embed, p);
      vectors := vectors[hash(t) := embed(t).v];
      k := k + 1;
    }
    assert texts[..k] == texts;
  }

  /** What embedding the pages promises when it returns. */
  ghost predicate EmbeddedWell<H(!new), V(!new)>(rows: seq<Row>, cache: set<H>, hash: string -> H,
                                                 embed: string -> Answer<V>,
                                                 r: Outcome<H, V>, batch: seq<string>)
    requires r.Embedded?
  {
    var whole := PageFragments(rows, {});
    && r.pieces == PageFragments(rows, RefusedPaths(whole, cache, hash, embed))
    && r.cached == cache * Hashes(r.pieces, hash)
    && Hashes(r.pieces, hash) <= r.cached + r.vectors.Keys
    && r.vectors.Keys !! cache
    && Faithful(r.vectors, whole + r.pieces, hash, embed)
    && (forall t :: t in batch ==> Size(t) <= WHOLE_SAFE_BYTES)
  }

  /** When no request fails, what is sent twice is exactly a text of two large pages, without a cached vector,
      that the model refuses; and nothing with a cached vector is sent. */
  ghost predicate SentTwice<H(!new), V(!new)>(whole: seq<Piece>, cache: set<H>, hash: string -> H,
                                              embed: string -> Answer<V>, all: seq<string>) {
    && (forall t :: t in all ==> hash(t) !in cache)
    && (forall t :: multiset(all)[t] >= 2 <==> embed(t).Refusal? && Asking(whole, cache, hash, t) >= 2)
  }

  lemma RefusedAlike<H(!new), V(!new)>(pieces: seq<Piece>, cache: set<H>, hash: string -> H, embed: string -> Answer<V>)
    ensures RefusedPaths(pieces, cache * Hashes(pieces, hash), hash, embed) == RefusedPaths(pieces, cache, hash, embed)
  {
    assert forall p :: p in pieces ==> hash(p.text) in Hashes(pieces, hash);
  }

  /** Nothing oversized is left for the batch: every large page was answered alone or is cut. */
  lemma LargeIsDone<H(!new)>(rows: seq<Row>, refused: set<string>, cache: set<H>, done: set<H>, hash: string -> H,
                             p: Piece)
    requires forall q :: q in PageFragments(rows, {}) && Large(q) && hash(q.text) !in cache && q.path !in refused ==>
               hash(q.text) in done
    requires p in PageFragments(rows, refused) && Size(p.text) > WHOLE_SAFE_BYTES
    ensures hash(p.text) in cache * Hashes(PageFragments(rows, refused), hash) + done
  {
    PieceFits(rows, refused, p);
  }

  lemma MissingFits<H(!new)>(pieces: seq<Piece>, known: set<H>, hash: string -> H)
    requires forall p :: p in pieces && Size(p.text) > WHOLE_SAFE_BYTES ==> hash(p.text) in known
    ensures forall t :: t in Missing(pieces, known, hash) ==> Size(t) <= WHOLE_SAFE_BYTES
  {
    var batch := Missing(pieces, known, hash);
    MissingFacts(pieces, known, hash);
    forall t | t in batch ensures Size(t) <= WHOLE_SAFE_BYTES {
      var i :| 0 <= i < |batch| && batch[i] == t;
      var p :| p in pieces && p.text == t;
      assert hash(batch[i]) !in known;
    }
  }

  lemma BatchFits<H(!new)>(rows: seq<Row>, refused: set<string>, cache: set<H>, done: set<H>, hash: string -> H)
    requires forall p :: p in PageFragments(rows, {}) && Large(p) && hash(p.text) !in cache && p.path !in refused ==>
               hash(p.text) in done
    ensures var pieces := PageFragments(rows, refused);
            forall t :: t in Missing(pieces, cache * Hashes(pieces, hash) + done, hash) ==> Size(t) <= WHOLE_SAFE_BYTES
  {
    var pieces := PageFragments(rows, refused);
    forall p | p in pieces && Size(p.text) > WHOLE_SAFE_BYTES
        ensures hash(p.text) in cache * Hashes(pieces, hash) + done {
      LargeIsDone(rows, refused, cache, done, hash, p);
    }
    MissingFits(pieces, cache * Hashes(pieces, hash) + done, hash);
  }

  lemma BatchIsNew<H(!new)>(pieces: seq<Piece>, cache: set<H>, done: set<H>, hash: string -> H)
    ensures AreNew(Missing(pieces, cache * Hashes(pieces, hash) + done, hash), cache + done, hash)
  {
    var known := cache * Hashes(pieces, hash) + done;
    var batch := Missing(pieces, known, hash);
    MissingFacts(pieces, known, hash);
    forall i | 0 <= i < |batch| ensures hash(batch[i]) !in cache + done {
      assert batch[i] in batch;
      var p :| p in pieces && p.text == batch[i];
      assert hash(p.text) in Hashes(pieces, hash);
    }
  }

  lemma FaithfulMore<H(!new), V(!new)>(vectors: map<H, V>, whole: seq<Piece>, pieces: seq<Piece>, hash: string -> H,
                                       embed: string -> Answer<V>)
    requires Faithful(vectors, whole, hash, embed)
    ensures Faithful(vectors, whole + pieces, hash, embed)
  {
    forall h | h in vectors
      ensures exists p :: p in whole + pieces && hash(p.text) == h && embed(p.text) == Vector(vectors[h])
    {
      var p :| p in whole && hash(p.text) == h && embed(p.text) == Vector(vectors[h]);
      assert p in whole + pieces;
    }
  }

  lemma BatchCovers<H(!new)>(whole: seq<Piece>, pieces: seq<Piece>, cached: set<H>, done: set<H>, hash: string -> H)
    ensures var batch := Missing(pieces, cached + done, hash);
            && Sendable(batch, whole + pieces, done, hash)
            && Hashes(pieces, hash) <= cached + done + TextHashes(batch, hash)
  {
    var batch := Missing(pieces, cached + done, hash);
    MissingFacts(pieces, cached + done, hash);
    forall t | t in batch ensures HasText(whole + pieces, t) {
      var p :| p in pieces && p.text == t;
      assert p in whole + pieces;
    }
    forall p | p in pieces ensures hash(p.text) in cached + done + TextHashes(batch, hash) {
      MissingCovers(pieces, cached + done, hash, p);
      if hash(p.text) !in cached + done {
        var i :| 0 <= i < |batch| && hash(batch[i]) == hash(p.text);
        assert batch[i] in batch;
      }
    }
  }

  /** The batch for what has no vector yet, and every vector after it. */
  method SendMissing<H(!new), V(!new)>(ghost whole: seq<Piece>, pieces: seq<Piece>, cached: set<H>, start: map<H, V>,
                                       hash: string -> H, embed: string -> Answer<V>)
    returns (r: Outcome<H, V>, batch: seq<string>)
    requires Faithful(start, whole, hash, embed) && start.Keys !! cached
    ensures batch == Missing(pieces, cached + start.Keys, hash) && Sendable(batch, whole + pieces, start.Keys, hash)
    ensures r.Raised? <==> exists t :: t in batch && !embed(t).Vector?
    ensures r.Embedded? ==>
              && r.pieces == pieces && r.cached == cached
              && Hashes(pieces, hash) <= cached + r.vectors.Keys
              && r.vectors.Keys == start.Keys + TextHashes(batch, hash)
              && Faithful(r.vectors, whole + pieces, hash, embed)
  {
    batch := Missing(pieces, cached + start.Keys, hash);
    BatchCovers(whole, pieces, cached, start.Keys, hash);
    FaithfulMore(start, whole, pieces, hash, embed);
    var vectors, failed := SendBatch(batch, whole + pieces, start, hash, embed);
    r := if failed then Raised else Embedded(pieces, cached, vectors);
  }

  lemma {:induction false} OnceInBatch<H(!new)>(batch: seq<string>, known: set<H>, hash: string -> H, t: string)
    requires AreNew(batch, known, hash)
    ensures multiset(batch)[t] <= 1
  {
    if batch != [] {
      var n := |batch| - 1;
      OnceInBatch(batch[..n], known, hash, t);
      assert batch == batch[..n] + [batch[n]];
      assert batch[n] !in batch[..n];
    }
  }

  /** The batch repeats nothing, of its own or of the first round. */
  lemma SentTwiceExactly<H(!new), V(!new)>(whole: seq<Piece>, cache: set<H>, done: set<H>, hash: string -> H,
                                           embed: string -> Answer<V>,
                                           sent: seq<string>, batch: seq<string>)
    requires sent == Requests(whole, cache, hash, embed) && !Fails(sent, embed)
    requires AreNew(batch, cache + done, hash) && forall t :: t in batch ==> Size(t) <= WHOLE_SAFE_BYTES
    ensures SentTwice(whole, cache, hash, embed, sent + batch)
  {
    hide Size, Requests, Asking;
    forall t ensures multiset(sent + batch)[t] >= 2 <==> embed(t).Refusal? && Asking(whole, cache, hash, t) >= 2 {
      RequestsOf(whole, cache, hash, embed, t);
      OnceInBatch(batch, cache + done, hash, t);
      if t in sent { RequestsAre(whole, cache, hash, embed, t); }
    }
    forall t | t in sent + batch ensures hash(t) !in cache {
      if t in sent {
        RequestsAre(whole, cache, hash, embed, t);
      } else {
        var i :| 0 <= i < |batch| && batch[i] == t;
        assert hash(batch[i]) !in cache + done;
      }
    }
  }

  lemma KeysAreNew<H(!new), V(!new)>(whole: seq<Piece>, cache: set<H>, vectors: map<H, V>, hash: string -> H,
                                     embed: string -> Answer<V>)
    requires Faithful(vectors, whole, hash, embed) && vectors.Keys !! cache * Hashes(whole, hash)
    ensures vectors.Keys !! cache
  {
    forall h | h in vectors ensures h !in cache {
      var p :| p in whole && hash(p.text) == h && embed(p.text) == Vector(vectors[h]);
      assert h in Hashes(whole, hash);
    }
  }

  /** The first round: every large page answered alone, or its path refused. */
  method FirstRound<H(!new), V(!new)>(whole: seq<Piece>, cache: set<H>, hash: string -> H, embed: string -> Answer<V>)
    returns (vectors: map<H, V>, refused: set<string>, sent: seq<string>, raised: bool)
    requires Injective(hash)
    ensures sent == Requests(whole, cache, hash, embed) && (raised <==> Fails(sent, embed))
    ensures !raised ==>
              && refused == RefusedPaths(whole, cache, hash, embed)
              && Faithful(vectors, whole, hash, embed) && vectors.Keys !! cache
              && (forall t :: t in sent ==> embed(t).Refusal? || hash(t) in vectors)
              && (forall p :: p in whole && Large(p) && hash(p.text) !in cache && p.path !in refused ==>
                  hash(p.text) in vectors)
  {
    RefusedAlike(whole, cache, hash, embed);
    assert forall p :: p in whole ==> hash(p.text) in Hashes(whole, hash);
    RequestsAlike(whole, cache * Hashes(whole, hash), cache, hash, embed);
    vectors, refused, sent, raised := SendLarge(whole, cache * Hashes(whole, hash), hash, embed);
    KeysAreNew(whole, cache, vectors, hash, embed);
  }

  method EmbedFragments<H(!new), V(!new)>(rows: seq<Row>, cache: set<H>, hash: string -> H, embed: string -> Answer<V>)
    returns (r: Outcome<H, V>, sent: seq<string>, batch: seq<string>)
    requires Injective(hash)
    ensures sent == Requests(PageFragments(rows, {}), cache, hash, embed)
    ensures r.Embedded? ==> EmbeddedWell(rows, cache, hash, embed, r, batch)
    ensures !Fails(sent, embed) ==> SentTwice(PageFragments(rows, {}), cache, hash, embed, sent + batch)
    ensures r.Raised? <==> Fails(sent, embed) || exists t :: t in batch && !embed(t).Vector?
    ensures Fails(sent, embed) ==> batch == []
  {
    batch := [];
    var whole := PageFragments(rows, {});
    var vectors, refused, raised;
    vectors, refused, sent, raised := FirstRound(whole, cache, hash, embed);
    if raised {
      return Raised, sent, batch;
    }
    var pieces := if refused == {} then whole else PageFragments(rows, refused);
    BatchFits(rows, refused, cache, vectors.Keys, hash);
    BatchIsNew(pieces, cache, vectors.Keys, hash);
    r, batch := SendMissing(whole, pieces, cache * Hashes(pieces, hash), vectors, hash, embed);
    SentTwiceExactly(whole, cache, vectors.Keys, hash, embed, sent, batch);
  }

  // ---- a text sent twice ------------------------------------------------------------------------------

  function Refuser(t: string): Answer<nat> { if Size(t) > WHOLE_SAFE_BYTES then Refusal else Vector(0) }

  function Same(t: string): string { t }

  function Twins(body: string): seq<Row> {
    [Row("wiki/entities/a.md", "T", body, Entity), Row("wiki/entities/b.md", "T", body, Entity)]
  }

  function TwinText(body: string): string { EmbedText("T", Fragment(0, 0, |body|, "", body)) }

  lemma TwinPieces(body: string)
    requires body != ""
    ensures PageFragments(Twins(body), {}) ==
            [Piece("wiki/entities/a.md", Entity, TwinText(body)), Piece("wiki/entities/b.md", Entity, TwinText(body))]
  {
    var rows := Twins(body);
    assert rows[..1] == [rows[0]] && rows[..1][..0] == [];
    assert PageRows(rows[0], false) == [Piece(rows[0].path, Entity, TwinText(body))];
    assert PageRows(rows[1], false) == [Piece(rows[1].path, Entity, TwinText(body))];
    assert PageFragments(rows[..1], {}) == PageRows(rows[0], false);
  }

  /** Two entity pages with the same title, and a same body of over 8000 characters, to a model that takes no text
      of over 8000 bytes: their text is sent twice. */
  lemma TwinsSentTwice(body: string)
    requires |body| > WHOLE_SAFE_BYTES
    ensures var sent := Requests(PageFragments(Twins(body), {}), {}, Same, Refuser);
            sent == [TwinText(body), TwinText(body)] && !Fails(sent, Refuser)
  {
    var text := TwinText(body);
    BytesBounds(text, 0, |text|);
    TwinPieces(body);
    var pieces := PageFragments(Twins(body), {});
    NoRequests(pieces, {}, Same, Refuser);
    RequestsMore(pieces, 0, {}, Same, Refuser);
    RequestsMore(pieces, 1, {}, Same, Refuser);
    assert pieces[..2] == pieces;
  }
}
