/** What the writer gets back: a merged page splits into exactly the layer's units. */
module LayerSplit {
  import opened Options
  import opened Text
  import opened PageBodies
  import opened BodyRender
  import opened BodyParse
  import opened BodyRoundTrip
  import opened BodyNormal
  import opened LayerPages
  import opened LayerFacts
  import opened LayerSections

  // ---- layers do not show in printed text -------------------------------------------------------------

  function Relabel(units: seq<Unit>, layer: string): (r: seq<Unit>)
    ensures |r| == |units| && forall k :: 0 <= k < |r| ==> r[k] == units[k].(layer := layer)
  {
    if units == [] then [] else Relabel(units[..|units| - 1], layer) + [units[|units| - 1].(layer := layer)]
  }

  function RelabelAll(sections: seq<Section>, layer: string): (r: seq<Section>)
    ensures |r| == |sections|
    ensures forall k :: 0 <= k < |r| ==> r[k] == sections[k].(units := Relabel(sections[k].units, layer))
  {
    if sections == [] then []
    else
      var n := |sections| - 1;
      RelabelAll(sections[..n], layer) + [sections[n].(units := Relabel(sections[n].units, layer))]
  }

  lemma {:induction false} RelabeledUnits(units: seq<Unit>, layer: string)
    ensures UnitsText(Relabel(units, layer)) == UnitsText(units)
  {
    if |units| > 1 {
      var n := |units| - 1;
      RelabeledUnits(units[..n], layer);
      assert Relabel(units, layer)[..n] == Relabel(units[..n], layer);
    }
  }

  lemma {:induction false} RelabeledChunks(sections: seq<Section>, layer: string)
    ensures Chunks(RelabelAll(sections, layer)) == Chunks(sections)
  {
    if sections != [] {
      var n := |sections| - 1;
      RelabeledChunks(sections[..n], layer);
      RelabeledUnits(sections[n].units, layer);
      assert RelabelAll(sections, layer)[..n] == RelabelAll(sections[..n], layer);
    }
  }

  lemma RelabeledText(b: Body, layer: string)
    ensures BodyText(b.(sections := RelabelAll(b.sections, layer))) == BodyText(b)
    ensures Render(b.(sections := RelabelAll(b.sections, layer))) == Render(b)
  {
    RelabeledChunks(b.sections, layer);
  }

  lemma RelabelAppends(a: seq<Unit>, b: seq<Unit>, layer: string)
    ensures Relabel(a + b, layer) == Relabel(a, layer) + Relabel(b, layer)
  {
  }

  lemma {:induction false} RelabeledGather(names: Names, sections: seq<Section>, layer: string, key: SectionKey)
    ensures Gather(names, RelabelAll(sections, layer), key) == Relabel(Gather(names, sections, key), layer)
  {
    if sections != [] {
      var n := |sections| - 1;
      RelabeledGather(names, sections[..n], layer, key);
      var last := sections[n];
      RelabelAppends(Gather(names, sections[..n], key), if SectionKeyOf(names, last) == key then last.units
                     else [], layer);
      GatherOne(names, RelabelAll(sections[..n], layer), last.(units := Relabel(last.units, layer)), key);
    }
  }

  // ---- combined bodies are sound --------------------------------------------------------------------

  predicate Stands(u: Unit) { UnitOk(u, u.layer) && Closed(u) }

  predicate AllStand(units: seq<Unit>) { forall u :: u in units ==> Stands(u) }

  predicate SectionsStand(sections: seq<Section>) {
    forall s :: s in sections ==> HeadingOk(s.heading) && AllStand(s.units)
  }

  lemma WholeStands(sections: seq<Section>, layer: string)
    requires Whole(sections, layer)
    ensures SectionsStand(sections)
  {
    forall s | s in sections ensures HeadingOk(s.heading) && AllStand(s.units) {
      var k :| 0 <= k < |sections| && sections[k] == s;
      assert SectionOk(s, layer) && AllClosed(s.units);
    }
  }

  lemma StandsWhole(sections: seq<Section>, layer: string)
    requires SectionsStand(sections)
    ensures Whole(RelabelAll(sections, layer), layer)
  {
    var r := RelabelAll(sections, layer);
    forall k | 0 <= k < |r| ensures SectionOk(r[k], layer) && AllClosed(r[k].units) {
      var s := sections[k];
      assert s in sections;
      forall i | 0 <= i < |r[k].units| ensures UnitOk(r[k].units[i], layer) && Closed(r[k].units[i]) {
        assert s.units[i] in s.units;
        assert Stands(s.units[i]);
      }
    }
  }

  lemma {:induction false} GatherStands(names: Names, sections: seq<Section>, key: SectionKey)
    requires SectionsStand(sections)
    ensures AllStand(Gather(names, sections, key))
  {
    if sections != [] {
      GatherStands(names, sections[..|sections| - 1], key);
    }
  }

  lemma CombinedStands(names: Names, sections: seq<Section>)
    requires SectionsStand(sections)
    ensures SectionsStand(CombineSections(names, sections, Order(names, sections), false))
  {
    var keys := Order(names, sections);
    var r := CombineSections(names, sections, keys, false);
    forall s | s in r ensures HeadingOk(s.heading) && AllStand(s.units) {
      var k :| 0 <= k < |r| && r[k] == s;
      assert FirstOf(names, sections, keys[k]) in sections;
      var gathered := Gather(names, sections, keys[k]);
      GatherStands(names, sections, keys[k]);
      forall u | u in s.units ensures Stands(u) {
        var i :| 0 <= i < |s.units| && s.units[i] == u;
        DedupeIn(names, gathered, keys[k] == Some(CONNECTIONS), i);
      }
    }
  }

  lemma TwoSections(a: Body, b: Body)
    ensures AllSections([a, b]) == a.sections + b.sections
    ensures FirstTitle([a, b]) == if a.title != "" then a.title else b.title
  {
    assert [a, b][..1] == [a] && [a][..0] == [];
    assert AllSections([a]) == AllSections([]) + a.sections == a.sections;
    assert [a, b][1..] == [b] && [b][1..] == [];
    assert FirstTitle([b]) == b.title;
  }

  // ---- what a merged page is read back as ------------------------------------------------------------

  lemma {:induction false} GatherLead(names: Names, sections: seq<Section>)
    requires forall k :: 0 <= k < |sections| ==> sections[k].heading.None? ==> k == 0
    ensures Gather(names, sections, None) == if sections != [] && sections[0].heading.None? then sections[0].units
            else []
  {
    if sections != [] {
      GatherLead(names, sections[..|sections| - 1]);
      assert Gather(names, [], None) == [];
    }
  }

  lemma DedupeHead(names: Names, units: seq<Unit>, connections: bool)
    requires units != []
    ensures Dedupe(names, units, connections) != [] && Dedupe(names, units, connections)[0] == units[0]
  {
    assert [units[0]] + units[1..] == units;
    assert [units[0]][..0] == [];
    assert TakeAll(names, [], connections) == Kept([], {}, {});
    assert TakeAll(names, [units[0]], connections).units == [units[0]];
    DedupeFrom(names, [units[0]], units[1..], connections);
  }

  /** The lead of a page without a title opens with no title line. */
  predicate PlainLead(names: Names, b: Body) {
    b.title == "" ==> var lead := Gather(names, b.sections, None);
      lead != [] ==> lead[0].lines != [] && !IsTitle(lead[0].lines[0])
  }

  lemma ParsedLead(names: Names, text: seq<Line>, layer: string)
    ensures PlainLead(names, Parse(text, layer))
  {
    ParseSound(text, layer);
    NoStrayTitle(text, layer);
    GatherLead(names, Parse(text, layer).sections);
  }

  lemma MergedLead(names: Names, p: Body, x: Body)
    requires PlainLead(names, p) && PlainLead(names, x)
    ensures PlainLead(names, Combine(names, [p, x], false))
  {
    TwoSections(p, x);
    GatherCombined(names, [p, x], None, false);
    GatherAppends(names, p.sections, x.sections, None);
    var all := Gather(names, p.sections + x.sections, None);
    if all != [] { DedupeHead(names, all, false); }
  }

  predicate DistinctHeads(names: Names, sections: seq<Section>) {
    forall i, j :: 0 <= i < j < |sections| ==> SectionKeyOf(names, sections[i]) != SectionKeyOf(names, sections[j])
  }

  lemma PlainFirstLine(names: Names, b: Body, layer: string)
    requires Whole(b.sections, layer) && PlainLead(names, b) && b.title == "" && BodyText(b) != []
    requires DistinctHeads(names, b.sections)
    ensures !IsTitle(BodyText(b)[0])
  {
    TextOf(b);
    WholeIsSound(b.sections, layer);
    var k := FirstOfSections(b.sections, layer);
    SectionEnds(b.sections[k], layer);
    if b.sections[k].heading.Some? {
      HeadingIsNoTitle(b.sections[k].heading.value);
    } else {
      OneLead(names, b.sections, k);
    }
  }

  lemma OneLead(names: Names, sections: seq<Section>, k: nat)
    requires DistinctHeads(names, sections)
    requires k < |sections| && sections[k].heading.None?
    ensures Gather(names, sections, None) == sections[k].units
  {
    var keys := seq(|sections|, i requires 0 <= i < |sections| => SectionKeyOf(names, sections[i]));
    GatherKeyed(names, sections, keys, None);
    assert keys[k] == None;
  }

  lemma CombinedPlain(names: Names, p: Body, x: Body, layer: string)
    requires Whole(p.sections, PUBLIC) && Whole(x.sections, layer) && PlainLead(names, p) && PlainLead(names, x)
    ensures var m := Combine(names, [p, x], false);
            m.title == "" && BodyText(m) != [] ==> !IsTitle(BodyText(m)[0])
  {
    MergedLead(names, p, x);
    MergedWhole(names, p, x, layer);
    DistinctSections(names, AllSections([p, x]));
    RelabeledPlain(names, Combine(names, [p, x], false));
  }

  lemma RelabeledPlain(names: Names, m: Body)
    requires PlainLead(names, m)
    requires var sections := RelabelAll(m.sections, PUBLIC); Whole(sections, PUBLIC) && DistinctHeads(names, sections)
    ensures m.title == "" && BodyText(m) != [] ==> !IsTitle(BodyText(m)[0])
  {
    if m.title == "" && BodyText(m) != [] {
      RelabeledLead(names, m);
      RelabeledText(m, PUBLIC);
      PlainFirstLine(names, m.(sections := RelabelAll(m.sections, PUBLIC)), PUBLIC);
    }
  }

  lemma RelabeledLead(names: Names, b: Body)
    requires PlainLead(names, b)
    ensures PlainLead(names, b.(sections := RelabelAll(b.sections, PUBLIC)))
  {
    RelabeledGather(names, b.sections, PUBLIC, None);
  }

  lemma DistinctSections(names: Names, sections: seq<Section>)
    ensures DistinctHeads(names, RelabelAll(CombineSections(names, sections, Order(names, sections), false), PUBLIC))
  {
    hide CombineSections, Order, Relabel;
    CombinedKeyed(names, sections, false);
    var c := CombineSections(names, sections, Order(names, sections), false);
    var r := RelabelAll(c, PUBLIC);
    forall i, j | 0 <= i < j < |r| ensures SectionKeyOf(names, r[i]) != SectionKeyOf(names, r[j]) {
      assert SectionKeyOf(names, r[i]) == SectionKeyOf(names, c[i])
             && SectionKeyOf(names, r[j]) == SectionKeyOf(names, c[j]);
    }
  }

  lemma MergedWhole(names: Names, p: Body, x: Body, layer: string)
    requires Whole(p.sections, PUBLIC) && Whole(x.sections, layer)
    ensures Whole(RelabelAll(Combine(names, [p, x], false).sections, PUBLIC), PUBLIC)
  {
    TwoSections(p, x);
    WholeStands(p.sections, PUBLIC);
    WholeStands(x.sections, layer);
    CombinedStands(names, p.sections + x.sections);
    StandsWhole(Combine(names, [p, x], false).sections, PUBLIC);
  }

  // ---- the writing view projects back -------------------------------------------------------------

  /** The layer shares no key with the public page and repeats none within a section; the items of the
      Connections section all link to different pages. */
  ghost predicate Separate(names: Names, p: Body, x: Body) {
    var conn := Some(CONNECTIONS);
    && (forall key, u :: u in Gather(names, x.sections, key) ==> KeyOf(names, u) !in Known(names, p.sections))
    && (forall key :: DistinctKeys(names, Gather(names, x.sections, key)))
    && DistinctLinks(names, Gather(names, x.sections, conn), true)
    && (forall u :: u in Gather(names, x.sections, conn) && LinkOf(names, u, true).Some? ==>
         !HasLink(names, Gather(names, p.sections, conn), true, LinkOf(names, u, true).value))
  }

  lemma {:induction false} GatherKnown(names: Names, sections: seq<Section>, key: SectionKey, u: Unit)
    requires u in Gather(names, sections, key)
    ensures KeyOf(names, u) in Known(names, sections)
    ensures exists s :: s in sections && SectionKeyOf(names, s) == key && u in s.units
  {
    var n := |sections| - 1;
    if u in Gather(names, sections[..n], key) {
      GatherKnown(names, sections[..n], key, u);
      var s :| s in sections[..n] && SectionKeyOf(names, s) == key && u in s.units;
      var i :| 0 <= i < n && sections[i] == s;
      var j :| 0 <= j < |s.units| && s.units[j] == u;
      assert sections[i].units[j] == u;
    } else {
      var j :| 0 <= j < |sections[n].units| && sections[n].units[j] == u;
    }
  }

  lemma SeparateIsNew(names: Names, p: Body, x: Body, key: SectionKey)
    requires Separate(names, p, x)
    ensures AllNew(names, Gather(names, p.sections, key), Gather(names, x.sections, key), key == Some(CONNECTIONS))
  {
    var a, b := Gather(names, p.sections, key), Gather(names, x.sections, key);
    forall i | 0 <= i < |b| ensures !HasKey(names, a, KeyOf(names, b[i])) {
      assert b[i] in b;
      if HasKey(names, a, KeyOf(names, b[i])) {
        var j :| 0 <= j < |a| && KeyOf(names, a[j]) == KeyOf(names, b[i]);
        GatherKnown(names, p.sections, key, a[j]);
        assert false;
      }
    }
    forall i | 0 <= i < |b| && LinkOf(names, b[i], key == Some(CONNECTIONS)).Some?
      ensures !HasLink(names, a, key == Some(CONNECTIONS), LinkOf(names, b[i], key == Some(CONNECTIONS)).value)
    {
      assert b[i] in b;
    }
  }

  /** The layer's units before any heading are printed where they are read back: the layer has none, the
      public page has some too, or nothing is printed under the public page's headings. */
  ghost predicate LeadStays(names: Names, p: Body, x: Body) {
    || Gather(names, x.sections, None) == []
    || Gather(names, p.sections, None) != []
    || forall s :: s in p.sections ==> Gather(names, p.sections + x.sections, SectionKeyOf(names, s)) == []
  }

  /** The parser's sections: only the first may lack a heading, and then it has units. */
  predicate Headed(sections: seq<Section>) {
    forall k :: 0 <= k < |sections| && sections[k].heading.None? ==> k == 0 && sections[k].units != []
  }

  lemma {:induction false} OrderHead(names: Names, sections: seq<Section>)
    requires sections != []
    ensures Order(names, sections) != [] && Order(names, sections)[0] == SectionKeyOf(names, sections[0])
  {
    if |sections| > 1 {
      OrderHead(names, sections[..|sections| - 1]);
    } else {
      assert Order(names, sections[..0]) == [];
    }
  }

  lemma LeadKey(names: Names, sections: seq<Section>)
    requires Headed(sections)
    ensures None in Order(names, sections) <==> Gather(names, sections, None) != []
    ensures Gather(names, sections, None) != [] ==>
            sections != [] && sections[0].heading.None? && Order(names, sections)[0] == None
  {
    OrderOk(names, sections);
    GatherLead(names, sections);
    if sections != [] { OrderHead(names, sections); }
    if None in Order(names, sections) {
      var s :| s in sections && SectionKeyOf(names, s) == None;
      var k :| 0 <= k < |sections| && sections[k] == s;
    }
  }

  /** Where the key of units without a heading stands among a merged page's. */
  lemma LeadIndex(names: Names, p: seq<Section>, x: seq<Section>, j: nat)
    requires Headed(p) && Headed(x)
    requires j < |Order(names, p + x)| && Order(names, p + x)[j] == None
    ensures if Gather(names, p, None) != [] then j == 0 else j == |Order(names, p)|
  {
    OrderOk(names, p + x);
    LeadKey(names, p);
    LeadKey(names, x);
    if Gather(names, p, None) != [] {
      OrderExtends(names, p, x);
      assert Order(names, p + x)[0] == None;
    } else {
      LeadInExtra(names, p, x);
      LeadNext(names, p, x);
      var before: seq<SectionKey> := Order(names, p) + [None];
      assert before[|before| - 1] == None && Order(names, p + x)[..|before|] == before;
      assert Order(names, p + x)[|before| - 1] == None;
    }
  }

  lemma LeadInExtra(names: Names, p: seq<Section>, x: seq<Section>)
    requires Headed(p) && Headed(x) && None in Order(names, p + x) && Gather(names, p, None) == []
    ensures None !in Order(names, p) && x != [] && SectionKeyOf(names, x[0]) == None
  {
    LeadKey(names, p);
    LeadKey(names, x);
    OrderOk(names, p);
    OrderOk(names, x);
    OrderOk(names, p + x);
    var s :| s in p + x && SectionKeyOf(names, s) == None;
    assert s in p || s in x;
  }

  lemma LeadNext(names: Names, a: seq<Section>, b: seq<Section>)
    requires b != [] && SectionKeyOf(names, b[0]) !in Order(names, a)
    ensures Order(names, a) + [SectionKeyOf(names, b[0])] <= Order(names, a + b)
  {
    OneMoreKey(names, a, b[0]);
    Rejoin(a, b);
    OrderExtends(names, a + [b[0]], b[1..]);
  }

  lemma Rejoin(a: seq<Section>, b: seq<Section>)
    requires b != []
    ensures a + [b[0]] + b[1..] == a + b
  {
  }

  lemma OneMoreKey(names: Names, a: seq<Section>, s: Section)
    requires SectionKeyOf(names, s) !in Order(names, a)
    ensures Order(names, a + [s]) == Order(names, a) + [SectionKeyOf(names, s)]
  {
    assert (a + [s])[..|a|] == a;
  }

  lemma CombinedUnits(names: Names, sections: seq<Section>, i: nat)
    requires i < |Order(names, sections)|
    ensures var r := RelabelAll(CombineSections(names, sections, Order(names, sections), false), PUBLIC);
            && (r[i].units == [] <==> Gather(names, sections, Order(names, sections)[i]) == [])
            && (r[i].heading.None? <==> Order(names, sections)[i] == None)
  {
    var key := Order(names, sections)[i];
    var gathered := Gather(names, sections, key);
    CombinedKey(names, sections, key, false);
    if gathered != [] { DedupeHead(names, gathered, key == Some(CONNECTIONS)); }
    assert Dedupe(names, [], key == Some(CONNECTIONS)) == [];
  }

  lemma NothingBefore(names: Names, p: Body, x: Body, i: nat, j: nat)
    requires Headed(p.sections) && Headed(x.sections) && LeadStays(names, p, x)
    requires var all := p.sections + x.sections;
             i < j < |Order(names, all)| && Order(names, all)[j] == None && Gather(names, all, None) != []
    ensures Gather(names, p.sections + x.sections, Order(names, p.sections + x.sections)[i]) == []
  {
    var first := Order(names, p.sections);
    LeadIndex(names, p.sections, x.sections, j);
    GatherAppends(names, p.sections, x.sections, None);
    OrderExtends(names, p.sections, x.sections);
    OrderOk(names, p.sections);
    assert Order(names, p.sections + x.sections)[i] == first[i] && first[i] in first;
  }

  lemma StaysFirst(names: Names, p: Body, x: Body)
    requires Headed(p.sections) && Headed(x.sections) && LeadStays(names, p, x)
    ensures LeadsFirst(RelabelAll(Combine(names, [p, x], false).sections, PUBLIC))
  {
    TwoSections(p, x);
    var all := p.sections + x.sections;
    var r := RelabelAll(CombineSections(names, all, Order(names, all), false), PUBLIC);
    forall i, j | 0 <= i < j < |r| && r[i].units != [] && r[j].heading.None? ensures r[j].units == [] {
      CombinedUnits(names, all, i);
      CombinedUnits(names, all, j);
      if Gather(names, all, None) != [] {
        NothingBefore(names, p, x, i, j);
      }
    }
  }

  /** Otherwise a section with a heading is printed first. */
  lemma MovesAway(names: Names, p: Body, x: Body) returns (i: nat)
    requires Headed(p.sections) && !LeadStays(names, p, x)
    ensures var r := RelabelAll(Combine(names, [p, x], false).sections, PUBLIC);
            i < |r| && r[i].units != [] && forall j :: 0 <= j <= i ==> r[j].heading.Some?
  {
    hide CombineSections, Order, Gather, RelabelAll;
    TwoSections(p, x);
    var all := p.sections + x.sections;
    var keys, first := Order(names, all), Order(names, p.sections);
    var r := RelabelAll(CombineSections(names, all, keys, false), PUBLIC);
    var s :| s in p.sections && Gather(names, all, SectionKeyOf(names, s)) != [];
    OrderOk(names, p.sections);
    OrderExtends(names, p.sections, x.sections);
    LeadKey(names, p.sections);
    i :| 0 <= i < |first| && first[i] == SectionKeyOf(names, s);
    CombinedUnits(names, all, i);
    forall j | 0 <= j <= i ensures r[j].heading.Some? {
      CombinedUnits(names, all, j);
      assert keys[j] == first[j] && first[j] in first;
    }
  }
}
