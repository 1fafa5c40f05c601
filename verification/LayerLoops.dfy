/** The printer, the merge, and the split as the loops they are. */
module LayerLoops {
  import opened Options
  import opened PageBodies
  import opened BodyRender
  import opened LayerPages
  import opened LayerSections

  lemma ChunksMore(sections: seq<Section>, i: nat)
    requires i < |sections|
    ensures Chunks(sections[..i + 1]) == Chunks(sections[..i]) + if sections[i].units == [] then []
            else [SectionText(sections[i])]
  {
    assert sections[..i + 1][..i] == sections[..i];
  }

  method RenderChunks(sections: seq<Section>) returns (chunks: seq<seq<Line>>)
    ensures chunks == Chunks(sections)
  {
    chunks := [];
    var i := 0;
    while i < |sections|
      invariant i <= |sections| && chunks == Chunks(sections[..i])
    {
      var section := sections[i];
      if section.units != [] {
        var chunk := if section.heading.Some? then [section.heading.value] else [];
        var rendered := RenderUnits(section.units);
        chunks := chunks + [chunk + rendered];
      }
      ChunksMore(sections, i);
      i := i + 1;
    }
    assert sections[..i] == sections;
  }

  method RenderBody(body: Body) returns (text: seq<Line>)
    ensures text == Render(body)
  {
    var chunks := RenderChunks(body.sections);
    var lines := JoinParts((if body.title == "" then [] else [[body.title]]) + chunks);
    if lines == [] {
      text := [""];
    } else {
      var stripped := StripTail(StripHead(lines));
      text := (if stripped == [] then [""] else stripped) + [""];
    }
  }

  method RenderUnits(units: seq<Unit>) returns (rendered: seq<Line>)
    ensures rendered == UnitsText(units)
  {
    rendered := [];
    var i := 0;
    while i < |units|
      invariant i <= |units| && rendered == UnitsText(units[..i])
    {
      assert units[..i + 1][..i] == units[..i];
      if i == 0 {
        rendered := units[i].lines;
      } else {
        rendered := rendered + Gap(units[i - 1], units[i]) + units[i].lines;
      }
      i := i + 1;
    }
    assert units[..i] == units;
  }

  method JoinParts(parts: seq<seq<Line>>) returns (lines: seq<Line>)
    ensures lines == Join(parts)
  {
    lines := [];
    var i := 0;
    while i < |parts|
      invariant i <= |parts| && lines == Join(parts[..i])
    {
      assert parts[..i + 1][..i] == parts[..i];
      lines := if i == 0 then parts[i] else lines + [""] + parts[i];
      i := i + 1;
    }
    assert parts[..i] == parts;
  }

  method DedupeUnits(names: Names, units: seq<Unit>, connections: bool) returns (kept: seq<Unit>)
    ensures kept == Dedupe(names, units, connections)
  {
    var seen: set<string>, targets: set<string> := {}, {};
    kept := [];
    var i := 0;
    while i < |units|
      invariant i <= |units| && Kept(kept, seen, targets) == TakeAll(names, units[..i], connections)
    {
      var unit := units[i];
      assert units[..i + 1][..i] == units[..i];
      i := i + 1;
      if KeyOf(names, unit) in seen { continue; }
      if connections && unit.kind == Item {
        var target := names.target(unit.lines);
        if target.Some? && target.value in targets { continue; }
        if target.Some? { targets := targets + {target.value}; }
      }
      seen := seen + {KeyOf(names, unit)};
      kept := kept + [unit];
    }
    assert units[..i] == units;
  }

  /** The dictionaries the merge fills, section by section: what each key has so far. */
  ghost predicate Filled(names: Names, sections: seq<Section>, order: seq<SectionKey>,
                         headings: map<SectionKey, Option<Line>>,
                         units: map<SectionKey, seq<Unit>>, newest: map<SectionKey, bool>)
  {
    && order == Order(names, sections)
    && (forall key :: key in order <==> key in units)
    && (forall key :: key in units ==>
         && key in headings && key in newest
         && units[key] == Gather(names, sections, key)
         && headings[key] == FirstOf(names, sections, key).heading
         && newest[key] == NewestFirst(names, FirstOf(names, sections, key).units))
  }

  lemma OneMore(names: Names, sections: seq<Section>, s: Section, key: SectionKey)
    ensures Order(names, sections + [s]) ==
            if SectionKeyOf(names, s) in Order(names, sections) then Order(names, sections)
            else Order(names, sections) + [SectionKeyOf(names, s)]
    ensures Gather(names, sections + [s], key) == Gather(names, sections, key) + if SectionKeyOf(names, s) == key
            then s.units else []
    ensures FirstOf(names, sections + [s], key) == if key in Order(names, sections) then FirstOf(names, sections, key)
            else s
  {
    assert (sections + [s])[..|sections|] == sections;
  }

  method AddSection(names: Names, s: Section, order: seq<SectionKey>, headings: map<SectionKey, Option<Line>>,
                    units: map<SectionKey, seq<Unit>>, newest: map<SectionKey, bool>, ghost sections: seq<Section>)
    returns (order': seq<SectionKey>, headings': map<SectionKey, Option<Line>>, units': map<SectionKey, seq<Unit>>,
             newest': map<SectionKey, bool>)
    requires Filled(names, sections, order, headings, units, newest)
    ensures Filled(names, sections + [s], order', headings', units', newest')
  {
    var key := SectionKeyOf(names, s);
    order', headings', units', newest' := order, headings, units, newest;
    if key !in units' {
      order' := order' + [key];
      headings' := headings'[key := s.heading];
      units' := units'[key := []];
      newest' := newest'[key := NewestFirst(names, s.units)];
      NoneGathered(names, sections, key);
    }
    units' := units'[key := units'[key] + s.units];
    forall k ensures k in units' ==>
         && k in headings' && k in newest' && units'[k] == Gather(names, sections + [s], k)
         && headings'[k] == FirstOf(names, sections + [s], k).heading
         && newest'[k] == NewestFirst(names, FirstOf(names, sections + [s], k).units)
    {
      OneMore(names, sections, s, k);
    }
    OneMore(names, sections, s, key);
  }

  lemma BodiesMore(bodies: seq<Body>, b: nat)
    requires b < |bodies|
    ensures AllSections(bodies[..b + 1]) == AllSections(bodies[..b]) + bodies[b].sections
  {
    assert bodies[..b + 1][..b] == bodies[..b];
  }

  method AddBody(names: Names, sections: seq<Section>, order: seq<SectionKey>, headings: map<SectionKey, Option<Line>>,
                 units: map<SectionKey, seq<Unit>>, newest: map<SectionKey, bool>, ghost before: seq<Section>)
    returns (order': seq<SectionKey>, headings': map<SectionKey, Option<Line>>, units': map<SectionKey, seq<Unit>>,
             newest': map<SectionKey, bool>)
    requires Filled(names, before, order, headings, units, newest)
    ensures Filled(names, before + sections, order', headings', units', newest')
  {
    order', headings', units', newest' := order, headings, units, newest;
    var i := 0;
    assert before + sections[..0] == before;
    while i < |sections|
      invariant i <= |sections| && Filled(names, before + sections[..i], order', headings', units', newest')
    {
      order', headings', units',
        newest' := AddSection(names, sections[i], order', headings', units', newest', before + sections[..i]);
      assert before + sections[..i] + [sections[i]] == before + sections[..i + 1];
      i := i + 1;
    }
    assert sections[..i] == sections;
  }

  lemma CombineMore(names: Names, sections: seq<Section>, keys: seq<SectionKey>, k: nat, dateOrder: bool)
    requires k < |keys|
    ensures CombineSections(names, sections, keys[..k + 1], dateOrder) ==
            CombineSections(names, sections, keys[..k], dateOrder)
              + [CombinedSection(names, sections, keys[k], dateOrder)]
  {
    assert keys[..k + 1][..k] == keys[..k];
  }

  method BuildSections(names: Names, order: seq<SectionKey>, headings: map<SectionKey, Option<Line>>,
                       units: map<SectionKey, seq<Unit>>, newest: map<SectionKey, bool>, dateOrder: bool,
                         ghost all: seq<Section>)
    returns (sections: seq<Section>)
    requires Filled(names, all, order, headings, units, newest)
    ensures sections == CombineSections(names, all, Order(names, all), dateOrder)
  {
    sections := [];
    var k := 0;
    while k < |order|
      invariant k <= |order| && sections == CombineSections(names, all, order[..k], dateOrder)
    {
      var key := order[k];
      assert key in units;
      var kept := DedupeUnits(names, units[key], key == Some(CONNECTIONS));
      sections := sections + [Section(headings[key], if dateOrder then ByDate(names, kept, newest[key]) else kept)];
      CombineMore(names, all, order, k, dateOrder);
      k := k + 1;
    }
    assert order[..k] == order;
  }

  method CombineBodies(names: Names, bodies: seq<Body>, dateOrder: bool) returns (r: Body)
    ensures r == Combine(names, bodies, dateOrder)
  {
    var order: seq<SectionKey> := [];
    var headings: map<SectionKey, Option<Line>> := map[];
    var units: map<SectionKey, seq<Unit>> := map[];
    var newest: map<SectionKey, bool> := map[];
    var b := 0;
    while b < |bodies|
      invariant b <= |bodies| && Filled(names, AllSections(bodies[..b]), order, headings, units, newest)
    {
      order, headings, units,
        newest := AddBody(names, bodies[b].sections, order, headings, units, newest, AllSections(bodies[..b]));
      BodiesMore(bodies, b);
      b := b + 1;
    }
    assert bodies[..b] == bodies;
    var sections := BuildSections(names, order, headings, units, newest, dateOrder, AllSections(bodies));
    r := Body(FirstTitle(bodies), sections);
  }

  method SplitFromPublic(names: Names, text: seq<Line>, public: seq<Line>) returns (r: seq<Line>)
    ensures r == Split(names, text, public)
  {
    hide Parse, Known, Without, Render;
    var parsed := ParseBody(text, PUBLIC);
    var base := ParseBody(public, PUBLIC);
    var known := Known(names, base.sections);
    var kept: seq<Section> := [];
    var i := 0;
    while i < |parsed.sections|
      invariant i <= |parsed.sections| && kept == Rest(names, parsed.sections[..i], known)
    {
      var units := Without(names, parsed.sections[i].units, known);
      assert parsed.sections[..i + 1][..i] == parsed.sections[..i];
      if units != [] {
        kept := kept + [Section(parsed.sections[i].heading, units)];
      }
      i := i + 1;
    }
    assert parsed.sections[..i] == parsed.sections;
    if kept == [] {
      r := [""];
    } else {
      r := RenderBody(Body(parsed.title, kept));
    }
  }
}
