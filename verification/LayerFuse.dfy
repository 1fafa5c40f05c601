/** What a reader sees: the public page fused with what a layer adds to it. */
module LayerFuse {
  import opened Options
  import opened Text
  import opened PageBodies
  import opened BodyRender
  import opened BodyParse
  import opened BodyRoundTrip
  import opened BodyNormal
  import opened LayerPages
  import opened LayerFacts
  import opened LayerSections
  import opened LayerSplit
  import opened LayerStored

  // ---- the order of dates -----------------------------------------------------------------------------

  predicate Ordered(names: Names, units: seq<Unit>, newest: bool)
    requires AllDated(names, units)
  {
    forall i, j :: 0 <= i < j < |units| ==> !Sooner(DateOf(names, units[j]), DateOf(names, units[i]), newest)
  }

  /** The units of one date, in order. */
  function OnDate(names: Names, units: seq<Unit>, date: nat): seq<Unit> {
    if units == [] then []
    else
      var n := |units| - 1;
      OnDate(names, units[..n], date) + if names.date(units[n].lines) == Some(date) then [units[n]] else []
  }

  lemma {:induction false} OnDateAppends(names: Names, a: seq<Unit>, u: Unit, date: nat)
    ensures OnDate(names, a + [u], date) == OnDate(names, a, date) + if names.date(u.lines) == Some(date) then [u]
            else []
  {
    assert (a + [u])[..|a|] == a;
  }

  lemma InsertDated(names: Names, sorted: seq<Unit>, u: Unit, newest: bool)
    requires AllDated(names, sorted) && AllDated(names, [u])
    ensures AllDated(names, Insert(names, sorted, u, newest))
    ensures forall v :: v in Insert(names, sorted, u, newest) <==> v in sorted || v == u
  {
    var r := Insert(names, sorted, u, newest);
    InsertKeeps(names, sorted, u, newest);
    forall v ensures v in r <==> v in sorted || v == u {
      assert v in r <==> v in multiset(r);
      assert v in sorted <==> v in multiset(sorted);
    }
    forall k | 0 <= k < |r| ensures names.date(r[k].lines).Some? {
      assert r[k] in r;
      assert [u][0] == u;
    }
  }

  lemma {:induction false} InsertOrders(names: Names, sorted: seq<Unit>, u: Unit, newest: bool)
    requires AllDated(names, sorted) && AllDated(names, [u]) && Ordered(names, sorted, newest)
    ensures AllDated(names, Insert(names, sorted, u, newest))
    ensures Ordered(names, Insert(names, sorted, u, newest), newest)
  {
    assert [u][0] == u;
    InsertDated(names, sorted, u, newest);
    var n := |sorted| - 1;
    if sorted != [] {
      InsertDated(names, sorted[..n], u, newest);
      InsertOrders(names, sorted[..n], u, newest);
      var r, front := Insert(names, sorted, u, newest), Insert(names, sorted[..n], u, newest);
      if Sooner(DateOf(names, u), DateOf(names, sorted[n]), newest) {
        forall i | 0 <= i < |front| ensures !Sooner(DateOf(names, sorted[n]), DateOf(names, front[i]), newest) {
          assert front[i] in front;
        }
      }
    }
  }

  /** A unit of another date may go before the last one. */
  lemma OnDateMoves(names: Names, units: seq<Unit>, u: Unit, date: nat)
    requires units != [] && names.date(u.lines) != names.date(units[|units| - 1].lines)
    ensures var front, last := units[..|units| - 1], units[|units| - 1];
            OnDate(names, units + [u], date) == OnDate(names, front + [u], date) + if names.date(last.lines) ==
              Some(date) then [last] else []
  {
    var front := units[..|units| - 1];
    OnDateAppends(names, units, u, date);
    OnDateAppends(names, front, u, date);
  }

  lemma {:induction false} InsertStable(names: Names, sorted: seq<Unit>, u: Unit, newest: bool, date: nat)
    requires AllDated(names, sorted) && AllDated(names, [u])
    ensures OnDate(names, Insert(names, sorted, u, newest), date) == OnDate(names, sorted + [u], date)
  {
    assert [u][0] == u;
    var n := |sorted| - 1;
    if sorted == [] {
      assert sorted + [u] == [u];
    } else if Sooner(DateOf(names, u), DateOf(names, sorted[n]), newest) {
      InsertStable(names, sorted[..n], u, newest, date);
      OnDateAppends(names, Insert(names, sorted[..n], u, newest), sorted[n], date);
      OnDateMoves(names, sorted, u, date);
    }
  }

  /** Fusing orders a dated section by its dates, in the direction asked, and leaves units of one date in
      the order they came. */
  lemma {:induction false} SortOrders(names: Names, units: seq<Unit>, newest: bool, date: nat)
    requires AllDated(names, units)
    ensures AllDated(names, Sort(names, units, newest)) && Ordered(names, Sort(names, units, newest), newest)
    ensures OnDate(names, Sort(names, units, newest), date) == OnDate(names, units, date)
  {
    if units != [] {
      var n := |units| - 1;
      SortOrders(names, units[..n], newest, date);
      var before := Sort(names, units[..n], newest);
      assert [units[n]][0] == units[n];
      InsertOrders(names, before, units[n], newest);
      InsertStable(names, before, units[n], newest, date);
      OnDateAppends(names, before, units[n], date);
      assert units == units[..n] + [units[n]];
    }
  }

  // ---- fusing -------------------------------------------------------------------------------------------

  lemma {:induction false} OnceEach(names: Names, units: seq<Unit>, u: Unit)
    requires DistinctKeys(names, units)
    ensures multiset(units)[u] <= 1
  {
    if units != [] {
      var n := |units| - 1;
      OnceEach(names, units[..n], u);
      assert units == units[..n] + [units[n]];
      if u == units[n] {
        forall k | 0 <= k < n ensures units[k] != u { assert KeyOf(names, units[k]) != KeyOf(names, units[n]); }
        assert u !in units[..n];
        assert multiset(units[..n])[u] == 0;
      }
    }
  }

  lemma Twice(units: seq<Unit>, i: nat, j: nat)
    requires i < j < |units| && units[i] == units[j]
    ensures multiset(units)[units[i]] >= 2
  {
    assert units == units[..j] + units[j..];
    assert units[..j][i] == units[i] && units[j..][0] == units[i];
  }

  /** Distinct keys stay distinct in any order. */
  lemma PermutedKeys(names: Names, a: seq<Unit>, b: seq<Unit>)
    requires DistinctKeys(names, a) && multiset(a) == multiset(b)
    ensures DistinctKeys(names, b)
  {
    forall i, j | 0 <= i < j < |b| ensures KeyOf(names, b[i]) != KeyOf(names, b[j]) {
      assert b[i] in multiset(b) && b[j] in multiset(b);
      if b[i] == b[j] {
        Twice(b, i, j);
        OnceEach(names, a, b[i]);
        assert false;
      }
      var x :| 0 <= x < |a| && a[x] == b[i];
      var y :| 0 <= y < |a| && a[y] == b[j];
      assert x < y || y < x;
    }
  }

  lemma PermutedShows(names: Names, a: seq<Unit>, b: seq<Unit>, u: Unit, connections: bool)
    requires Shows(names, a, u, connections) && multiset(a) == multiset(b)
    ensures Shows(names, b, u, connections)
  {
    var x :| 0 <= x < |a|
        && (KeyOf(names, a[x]) == KeyOf(names, u)
            || (LinkOf(names, u, connections).Some?
                && LinkOf(names, a[x], connections) == LinkOf(names, u, connections)));
    assert a[x] in multiset(a);
    assert a[x] in b;
  }

  /** What a fused page has under a key, against the pages it was fused from. */
  lemma FusedUnits(names: Names, bodies: seq<Body>, key: SectionKey)
    ensures var all, got := Gather(names, AllSections(bodies), key),
            Gather(names, Combine(names, bodies, true).sections, key);
            && DistinctKeys(names, got)
            && (forall u :: u in all ==> Shows(names, got, u, key == Some(CONNECTIONS)))
            && (forall u :: u in got ==> u in all)
  {
    var conn := key == Some(CONNECTIONS);
    var all, got := Gather(names, AllSections(bodies), key), Gather(names, Combine(names, bodies, true).sections, key);
    var kept := Dedupe(names, all, conn);
    GatherCombined(names, bodies, key, true);
    TakeAllOk(names, all, conn);
    PermutedKeys(names, kept, got);
    forall u | u in all ensures Shows(names, got, u, conn) {
      var i :| 0 <= i < |all| && all[i] == u;
      DedupeShows(names, all, conn, i);
      PermutedShows(names, kept, got, u, conn);
    }
    forall u | u in got ensures u in all {
      assert u in multiset(got);
      var i :| 0 <= i < |kept| && kept[i] == u;
      DedupeIn(names, all, conn, i);
    }
  }

  // ---- the public page and a layer ------------------------------------------------------------------

  lemma {:induction false} RelabelIn(units: seq<Unit>, layer: string, u: Unit)
    requires forall v :: v in units ==> v.layer == PUBLIC
    ensures u in Relabel(units, layer) <==> u.layer == layer && u.(layer := PUBLIC) in units
  {
    if u in Relabel(units, layer) {
      var k :| 0 <= k < |units| && Relabel(units, layer)[k] == u;
      assert units[k] in units;
    }
    if u.layer == layer && u.(layer := PUBLIC) in units {
      var k :| 0 <= k < |units| && units[k] == u.(layer := PUBLIC);
      assert Relabel(units, layer)[k] == u;
    }
  }

  lemma LayerOfParsed(names: Names, text: seq<Line>, layer: string, key: SectionKey)
    ensures forall u :: u in Gather(names, Parse(text, layer).sections, key) ==> u.layer == layer
  {
    ParseSound(text, layer);
    var sections := Parse(text, layer).sections;
    forall u | u in Gather(names, sections, key) ensures u.layer == layer {
      GatherKnown(names, sections, key, u);
      var s :| s in sections && SectionKeyOf(names, s) == key && u in s.units;
      var k :| 0 <= k < |sections| && sections[k] == s;
      SoundHeading(sections, k, layer);
      var j :| 0 <= j < |s.units| && s.units[j] == u;
      assert UnitOk(s.units[j], layer);
    }
  }

  /** The parts a reader of a layer sees: the public page and what the split stored. */
  function Parts(names: Names, text: seq<Line>, public: seq<Line>, layer: string): seq<Part> {
    [Part(PUBLIC, public), Part(layer, Split(names, text, public))]
  }

  lemma TwoParts(a: Part, b: Part)
    ensures ParseParts([a, b]) == [Parse(a.text, a.layer), Parse(b.text, b.layer)]
  {
    assert [a, b][..1] == [a] && [a][..0] == [];
    assert ParseParts([a]) == ParseParts([]) + [Parse(a.text, a.layer)];
  }

  /** The units a layer's body adds under a key, as the layer's. */
  function Added(names: Names, text: seq<Line>, public: seq<Line>, layer: string, key: SectionKey): seq<Unit> {
    Relabel(Without(names, Gather(names, Parse(text, PUBLIC).sections, key),
                    Known(names, Parse(public, PUBLIC).sections)), layer)
  }

  lemma StoredFor(names: Names, text: seq<Line>, public: seq<Line>, layer: string, key: SectionKey)
    requires EdgeBlind(names) && ReadsOn(SplitBody(names, text, public))
    ensures StandFor(names, Gather(names, Parse(Split(names, text, public), layer).sections, key),
                     Added(names, text, public, layer, key),
                     key == Some(CONNECTIONS))
  {
    hide Parse, Render, EdgeBlind, ReadsOn, Rest, Known, Without;
    var rest := SplitBody(names, text, public);
    GatherRest(names, Parse(text, PUBLIC).sections, Known(names, Parse(public, PUBLIC).sections), key);
    RelabeledGather(names, rest.sections, layer, key);
    if rest.sections == [] {
      ParseNothing(layer);
      assert Gather(names, [], key) == [];
    } else {
      RestKept(names, text, public, layer);
      RelabeledReads(rest, layer);
      RelabeledText(rest, layer);
      ReadBackFor(names, Marked(rest, layer), layer);
      GatherFor(names, Parse(Render(rest), layer).sections, Marked(rest, layer).sections, key);
    }
  }

  /** `got` shows the public units `p` and those of `b` not yet known, none twice, and marks the latter. */
  ghost predicate FusedOk(names: Names, p: seq<Unit>, b: seq<Unit>, known: set<string>, layer: string, got: seq<Unit>,
                          connections: bool) {
    && DistinctKeys(names, got)
    && (forall u :: u in p ==> Shows(names, got, u, connections))
    && (forall u :: u in b && KeyOf(names, u) !in known ==> Shows(names, got, u, connections))
    && (forall u :: u in got ==>
         if u.layer == PUBLIC then u in p
         else u.layer == layer && KeyOf(names, u) !in known && HasKey(names, b, KeyOf(names, u)))
  }

  predicate AllPublic(units: seq<Unit>) { forall u :: u in units ==> u.layer == PUBLIC }

  lemma AddedIs(names: Names, b: seq<Unit>, known: set<string>, layer: string, u: Unit)
    requires AllPublic(b)
    ensures u in Relabel(Without(names, b, known), layer) <==>
            u.layer == layer && KeyOf(names, u) !in known && u.(layer := PUBLIC) in b
  {
    var added := Without(names, b, known);
    forall v | v in added ensures v.layer == PUBLIC { WithoutIs(names, b, known, v); }
    RelabelIn(added, layer, u);
    WithoutIs(names, b, known, u.(layer := PUBLIC));
  }

  lemma ShowsFor(names: Names, got: seq<Unit>, a: Unit, b: Unit, connections: bool)
    requires StandsFor(names, a, b, connections) && Shows(names, got, a, connections)
    ensures Shows(names, got, b, connections)
  {
  }

  /** A unit added is shown by the one that stands for it. */
  lemma AddedShown(names: Names, b: seq<Unit>, known: set<string>, layer: string, s: seq<Unit>, got: seq<Unit>, u: Unit,
                   connections: bool)
    requires AllPublic(b) && StandFor(names, s, Relabel(Without(names, b, known), layer), connections)
    requires forall v :: v in s ==> Shows(names, got, v, connections)
    requires u in b && KeyOf(names, u) !in known
    ensures Shows(names, got, u, connections)
  {
    hide Shows;
    var added := Relabel(Without(names, b, known), layer);
    var marked := u.(layer := layer);
    assert marked.(layer := PUBLIC) == u;
    AddedIs(names, b, known, layer, marked);
    var i :| 0 <= i < |added| && added[i] == marked;
    assert StandsFor(names, s[i], added[i], connections);
    ShowsFor(names, got, s[i], marked, connections);
    ShowsAlike(names, got, marked, u, connections);
  }

  lemma ShowsAlike(names: Names, got: seq<Unit>, a: Unit, b: Unit, connections: bool)
    requires Shows(names, got, a, connections) && a.kind == b.kind && a.lines == b.lines
    ensures Shows(names, got, b, connections)
  {
  }

  /** A unit stored stands for one of the body's that is not known. */
  lemma StoredIsAdded(names: Names, b: seq<Unit>, known: set<string>, layer: string, s: seq<Unit>, u: Unit,
                      connections: bool)
    requires AllPublic(b) && StandFor(names, s, Relabel(Without(names, b, known), layer), connections) && u in s
    ensures u.layer == layer && KeyOf(names, u) !in known && HasKey(names, b, KeyOf(names, u))
  {
    var added := Relabel(Without(names, b, known), layer);
    var i :| 0 <= i < |s| && s[i] == u;
    assert StandsFor(names, s[i], added[i], connections);
    assert added[i] in added;
    AddedIs(names, b, known, layer, added[i]);
    var k :| 0 <= k < |b| && b[k] == added[i].(layer := PUBLIC);
    assert KeyOf(names, b[k]) == KeyOf(names, u);
  }

  lemma FusedParts(names: Names, p: seq<Unit>, b: seq<Unit>, known: set<string>, layer: string, s: seq<Unit>,
                   got: seq<Unit>, connections: bool)
    requires layer != PUBLIC && AllPublic(p) && AllPublic(b) && DistinctKeys(names, got)
    requires StandFor(names, s, Relabel(Without(names, b, known), layer), connections)
    requires forall u :: u in p + s ==> Shows(names, got, u, connections)
    requires forall u :: u in got ==> u in p + s
    ensures FusedOk(names, p, b, known, layer, got, connections)
  {
    hide Shows, StandFor, DistinctKeys, Without, HasKey;
    forall u | u in b && KeyOf(names, u) !in known ensures Shows(names, got, u, connections) {
      AddedShown(names, b, known, layer, s, got, u, connections);
    }
    forall u | u in got
      ensures if u.layer == PUBLIC then u in p
              else u.layer == layer && KeyOf(names, u) !in known && HasKey(names, b, KeyOf(names, u))
    {
      if u in s { StoredIsAdded(names, b, known, layer, s, u, connections); }
    }
  }

  /** What a reader of the layer sees under a heading. */
  function Seen(names: Names, text: seq<Line>, public: seq<Line>, layer: string, key: SectionKey): seq<Unit> {
    Gather(names, Fused(names, Parts(names, text, public, layer)).sections, key)
  }

  /** The fused page is as promised under a heading. */
  ghost predicate FusedAt(names: Names, text: seq<Line>, public: seq<Line>, layer: string, key: SectionKey) {
    var p, b := Parse(public, PUBLIC).sections, Parse(text, PUBLIC).sections;
    FusedOk(names, Gather(names, p, key), Gather(names, b, key), Known(names, p), layer,
            Seen(names, text, public, layer, key), key == Some(CONNECTIONS))
  }

  /** It shows what the public page has under the heading and what is stored, each key once, and nothing else. */
  lemma SeenIs(names: Names, text: seq<Line>, public: seq<Line>, layer: string, key: SectionKey)
    ensures var got, conn := Seen(names, text, public, layer, key), key == Some(CONNECTIONS);
            var all := Gather(names, Parse(public, PUBLIC).sections, key)
                + Gather(names, Parse(Split(names, text, public), layer).sections, key);
            DistinctKeys(names, got) && (forall u :: u in all ==> Shows(names, got, u, conn))
              && (forall u :: u in got ==> u in all)
  {
    hide Parse, Split, Shows, DistinctKeys;
    var p, s := Parse(public, PUBLIC), Parse(Split(names, text, public), layer);
    TwoParts(Part(PUBLIC, public), Part(layer, Split(names, text, public)));
    FusedUnits(names, [p, s], key);
    TwoSections(p, s);
    GatherAppends(names, p.sections, s.sections, key);
  }

  /** For every body and public page the stored text of which reads on: under every heading a fused page shows
      each unit of the public page, and each unit of the layer's body the public page does not know, once; and
      it marks as the layer's exactly those. The one exception: two Connections items that link to the same
      page show as one. */
  lemma FusedShowsBoth(names: Names, text: seq<Line>, public: seq<Line>, layer: string, key: SectionKey)
    requires EdgeBlind(names) && layer != PUBLIC && ReadsOn(SplitBody(names, text, public))
    ensures FusedAt(names, text, public, layer, key)
  {
    hide Parse, Split, Shows, DistinctKeys, FusedOk, Fused, StandFor, EdgeBlind, ReadsOn;
    var p, b := Parse(public, PUBLIC).sections, Parse(text, PUBLIC).sections;
    SeenIs(names, text, public, layer, key);
    StoredFor(names, text, public, layer, key);
    LayerOfParsed(names, public, PUBLIC, key);
    LayerOfParsed(names, text, PUBLIC, key);
    FusedParts(names, Gather(names, p, key), Gather(names, b, key), Known(names, p), layer,
               Gather(names, Parse(Split(names, text, public), layer).sections, key),
                 Seen(names, text, public, layer, key), key == Some(CONNECTIONS));
  }

  /** A unit of the layer's body that is not stored is a unit of the public page, under one of its headings,
      and shown there; whatever the body. */
  lemma KnownIsShown(names: Names, text: seq<Line>, public: seq<Line>, layer: string, u: Unit) returns (key: SectionKey)
    requires KeyOf(names, u) in Known(names, Parse(public, PUBLIC).sections)
    ensures exists v :: v in Gather(names, Parse(public, PUBLIC).sections, key) && KeyOf(names, v) == KeyOf(names, u)
              && Shows(names, Seen(names, text, public, layer, key), v, key == Some(CONNECTIONS))
  {
    hide Parse, Seen, Shows, Split;
    var sections := Parse(public, PUBLIC).sections;
    var i, j :| 0 <= i < |sections| && 0 <= j < |sections[i].units|
        && KeyOf(names, sections[i].units[j]) == KeyOf(names, u);
    key := SectionKeyOf(names, sections[i]);
    GatherHas(names, sections, i, j);
    SeenIs(names, text, public, layer, key);
    assert sections[i].units[j] in Gather(names, sections, key)
           + Gather(names, Parse(Split(names, text, public), layer).sections, key);
  }

  lemma {:induction false} GatherHas(names: Names, sections: seq<Section>, i: nat, j: nat)
    requires i < |sections| && j < |sections[i].units|
    ensures sections[i].units[j] in Gather(names, sections, SectionKeyOf(names, sections[i]))
  {
    var n := |sections| - 1;
    if i < n { GatherHas(names, sections[..n], i, j); }
  }
}
