/** Pages stored in layers: merged for writing, split off the public page again, and fused for reading. */
module LayerPages {
  import opened Options
  import opened PageBodies
  import opened BodyRender

  const CONNECTIONS := "## connections"

  /** What identifies units and headings: the key of a unit's text, the folded key of a heading, the page
      the first link of a text names, and the date a text starts with. */
  datatype Names = Names(unit: seq<Line> -> string, heading: Line -> string,
                         target: seq<Line> -> Option<string>, date: seq<Line> -> Option<nat>)

  type SectionKey = Option<string>

  function KeyOf(names: Names, u: Unit): string { names.unit(u.lines) }

  function SectionKeyOf(names: Names, s: Section): SectionKey {
    if s.heading.Some? then Some(names.heading(s.heading.value)) else None
  }

  // ---- duplicates -------------------------------------------------------------------------------

  datatype Kept = Kept(units: seq<Unit>, seen: set<string>, targets: set<string>)

  /** The page a Connections item links to. */
  function LinkOf(names: Names, u: Unit, connections: bool): Option<string> {
    if connections && u.kind == Item then names.target(u.lines) else None
  }

  function Take(names: Names, k: Kept, u: Unit, connections: bool): Kept {
    var link := LinkOf(names, u, connections);
    if KeyOf(names, u) in k.seen || (link.Some? && link.value in k.targets) then k
    else Kept(k.units + [u], k.seen + {KeyOf(names, u)}, if link.Some? then k.targets + {link.value} else k.targets)
  }

  function TakeAll(names: Names, units: seq<Unit>, connections: bool): Kept {
    if units == [] then Kept([], {}, {})
    else Take(names, TakeAll(names, units[..|units| - 1], connections), units[|units| - 1], connections)
  }

  function Dedupe(names: Names, units: seq<Unit>, connections: bool): seq<Unit> {
    TakeAll(names, units, connections).units
  }

  // ---- sections of several bodies -----------------------------------------------------------------

  function AllSections(bodies: seq<Body>): seq<Section> {
    if bodies == [] then [] else AllSections(bodies[..|bodies| - 1]) + bodies[|bodies| - 1].sections
  }

  function FirstTitle(bodies: seq<Body>): Line {
    if bodies == [] then "" else if bodies[0].title != "" then bodies[0].title else FirstTitle(bodies[1..])
  }

  /** The section keys, in the order they first appear. */
  function Order(names: Names, sections: seq<Section>): seq<SectionKey> {
    if sections == [] then []
    else
      var n := |sections| - 1;
      var before, key := Order(names, sections[..n]), SectionKeyOf(names, sections[n]);
      if key in before then before else before + [key]
  }

  /** The units under one key, in order. */
  function Gather(names: Names, sections: seq<Section>, key: SectionKey): seq<Unit> {
    if sections == [] then []
    else
      var n := |sections| - 1;
      Gather(names, sections[..n], key) + if SectionKeyOf(names, sections[n]) == key then sections[n].units else []
  }

  function FirstOf(names: Names, sections: seq<Section>, key: SectionKey): (s: Section)
    ensures key in Order(names, sections) ==> s in sections && SectionKeyOf(names, s) == key
  {
    if sections == [] then Section(None, [])
    else
      var n := |sections| - 1;
      if key in Order(names, sections[..n]) then FirstOf(names, sections[..n], key) else sections[n]
  }

  // ---- dates --------------------------------------------------------------------------------------

  predicate AllDated(names: Names, units: seq<Unit>) {
    forall k :: 0 <= k < |units| ==> names.date(units[k].lines).Some?
  }

  function DateOf(names: Names, u: Unit): nat
    requires names.date(u.lines).Some?
  {
    names.date(u.lines).value
  }

  /** The dates never go up and are not all the same. */
  predicate NewestFirst(names: Names, units: seq<Unit>) {
    && AllDated(names, units)
    && (forall i, j :: 0 <= i < j < |units| ==> DateOf(names, units[j]) <= DateOf(names, units[i]))
    && (exists i, j :: 0 <= i < j < |units| && DateOf(names, units[i]) != DateOf(names, units[j]))
  }

  predicate Sooner(a: nat, b: nat, newest: bool) { if newest then b < a else a < b }

  /** `u` goes after everything it does not precede. */
  function Insert(names: Names, sorted: seq<Unit>, u: Unit, newest: bool): seq<Unit>
    requires AllDated(names, sorted) && AllDated(names, [u])
  {
    if sorted == [] then [u]
    else
      var n := |sorted| - 1;
      if Sooner(DateOf(names, [u][0]), DateOf(names, sorted[n]), newest)
      then Insert(names, sorted[..n], u, newest) + [sorted[n]] else sorted + [u]
  }

  function Sort(names: Names, units: seq<Unit>, newest: bool): (r: seq<Unit>)
    requires AllDated(names, units)
    ensures multiset(r) == multiset(units)
  {
    if units == [] then []
    else
      var n := |units| - 1;
      var before := Sort(names, units[..n], newest);
      assert units == units[..n] + [units[n]];
      SameDated(names, units[..n], before);
      assert AllDated(names, [units[n]]);
      InsertKeeps(names, before, units[n], newest);
      Insert(names, before, units[n], newest)
  }

  lemma SameDated(names: Names, a: seq<Unit>, b: seq<Unit>)
    requires AllDated(names, a) && multiset(a) == multiset(b)
    ensures AllDated(names, b)
  {
    forall k | 0 <= k < |b| ensures names.date(b[k].lines).Some? {
      assert b[k] in multiset(b);
      assert b[k] in a;
    }
  }

  lemma {:induction false} InsertKeeps(names: Names, sorted: seq<Unit>, u: Unit, newest: bool)
    requires AllDated(names, sorted) && AllDated(names, [u])
    ensures multiset(Insert(names, sorted, u, newest)) == multiset(sorted) + multiset{u}
  {
    if sorted != [] {
      var n := |sorted| - 1;
      InsertKeeps(names, sorted[..n], u, newest);
      assert sorted == sorted[..n] + [sorted[n]];
    }
  }

  /** A section all of whose units are dated is put in the order of its dates. */
  function ByDate(names: Names, units: seq<Unit>, newest: bool): seq<Unit> {
    if units != [] && AllDated(names, units) then Sort(names, units, newest) else units
  }

  // ---- the operations -------------------------------------------------------------------------------

  function CombinedSection(names: Names, sections: seq<Section>, key: SectionKey, dateOrder: bool): Section {
    var first := FirstOf(names, sections, key);
    var units := Dedupe(names, Gather(names, sections, key), key == Some(CONNECTIONS));
    Section(first.heading, if dateOrder then ByDate(names, units, NewestFirst(names, first.units)) else units)
  }

  function CombineSections(names: Names, sections: seq<Section>, keys: seq<SectionKey>, dateOrder: bool):
      (r: seq<Section>)
    ensures |r| == |keys|
    ensures forall k :: 0 <= k < |keys| ==> r[k] == CombinedSection(names, sections, keys[k], dateOrder)
  {
    hide CombinedSection;
    if keys == [] then []
    else
      var n := |keys| - 1;
      CombineSections(names, sections, keys[..n], dateOrder) + [CombinedSection(names, sections, keys[n], dateOrder)]
  }

  function Combine(names: Names, bodies: seq<Body>, dateOrder: bool): Body {
    var sections := AllSections(bodies);
    Body(FirstTitle(bodies), CombineSections(names, sections, Order(names, sections), dateOrder))
  }

  function Merged(names: Names, public: seq<Line>, extra: seq<Line>, layer: string): Body {
    Combine(names, [Parse(public, PUBLIC), Parse(extra, layer)], false)
  }

  /** Every key of a body's units. */
  function Known(names: Names, sections: seq<Section>): set<string> {
    set i, j | 0 <= i < |sections| && 0 <= j < |sections[i].units| :: KeyOf(names, sections[i].units[j])
  }

  function Without(names: Names, units: seq<Unit>, known: set<string>): seq<Unit> {
    if units == [] then []
    else
      var n := |units| - 1;
      Without(names, units[..n], known) + if KeyOf(names, units[n]) in known then [] else [units[n]]
  }

  /** The sections with units not yet known, and those units. */
  function Rest(names: Names, sections: seq<Section>, known: set<string>): seq<Section> {
    if sections == [] then []
    else
      var n := |sections| - 1;
      var units := Without(names, sections[n].units, known);
      Rest(names, sections[..n], known) + if units == [] then [] else [Section(sections[n].heading, units)]
  }

  function SplitBody(names: Names, text: seq<Line>, public: seq<Line>): Body {
    var parsed := Parse(text, PUBLIC);
    Body(parsed.title, Rest(names, parsed.sections, Known(names, Parse(public, PUBLIC).sections)))
  }

  function Split(names: Names, text: seq<Line>, public: seq<Line>): seq<Line> {
    var rest := SplitBody(names, text, public);
    if rest.sections == [] then [""] else Render(rest)
  }

  datatype Part = Part(layer: string, text: seq<Line>)

  function ParseParts(parts: seq<Part>): seq<Body> {
    if parts == [] then []
    else ParseParts(parts[..|parts| - 1]) + [Parse(parts[|parts| - 1].text, parts[|parts| - 1].layer)]
  }

  /** What a reader sees, before units are marked with their layers. */
  function Fused(names: Names, parts: seq<Part>): Body { Combine(names, ParseParts(parts), true) }
}
