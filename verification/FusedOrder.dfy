/** The order of a combined page: its sections, and the units of each. */
module FusedOrder {
  import opened Options
  import opened PageBodies
  import opened LayerPages
  import opened LayerFacts
  import opened LayerSections
  import opened LayerFuse

  /** The first of the sections under a key. */
  ghost predicate FirstUnder(names: Names, sections: seq<Section>, key: SectionKey, j: nat) {
    && j < |sections| && SectionKeyOf(names, sections[j]) == key
    && forall i :: 0 <= i < j ==> SectionKeyOf(names, sections[i]) != key
  }

  /** Every unit has a date, and these are they. */
  predicate DatesAre(names: Names, units: seq<Unit>, dates: seq<nat>) {
    |dates| == |units| && forall k :: 0 <= k < |units| ==> names.date(units[k].lines) == Some(dates[k])
  }

  /** None rises, and they are not all the same. */
  predicate Falls(dates: seq<nat>) {
    && (forall i, j :: 0 <= i < j < |dates| ==> dates[i] >= dates[j])
    && exists i, j :: 0 <= i < j < |dates| && dates[i] != dates[j]
  }

  ghost predicate DatesFall(names: Names, units: seq<Unit>) {
    exists dates :: DatesAre(names, units, dates) && Falls(dates)
  }

  /** `units` are those kept, in the order of their dates, those of one date in the order they came. */
  ghost predicate InDateOrder(names: Names, units: seq<Unit>, kept: seq<Unit>, newest: bool) {
    && multiset(units) == multiset(kept) && AllDated(names, units)
    && (forall i, j :: 0 <= i < j < |units| ==>
          var a, b := DateOf(names, units[i]), DateOf(names, units[j]);
          if newest then a >= b else a <= b)
    && forall date :: OnDate(names, units, date) == OnDate(names, kept, date)
  }

  /** What a section of a combined page is: under the heading of the first section of its key, the first unit of each
      key; for a reader, if all are dated, in the direction of that section's dates, and else as they came. */
  ghost predicate CombinedWell(names: Names, sections: seq<Section>, s: Section, dateOrder: bool) {
    var key := SectionKeyOf(names, s);
    var kept := Dedupe(names, Gather(names, sections, key), key == Some(CONNECTIONS));
    exists j: nat :: FirstUnder(names, sections, key, j) && s.heading == sections[j].heading
      && if dateOrder && AllDated(names, kept)
         then InDateOrder(names, s.units, kept, DatesFall(names, sections[j].units))
         else s.units == kept
  }

  lemma {:induction false} FirstOfIs(names: Names, sections: seq<Section>, key: SectionKey) returns (j: nat)
    requires key in Order(names, sections)
    ensures FirstUnder(names, sections, key, j) && FirstOf(names, sections, key) == sections[j]
  {
    var n := |sections| - 1;
    if key in Order(names, sections[..n]) {
      j := FirstOfIs(names, sections[..n], key);
    } else {
      j := n;
      OrderOk(names, sections[..n]);
      forall i | 0 <= i < n ensures SectionKeyOf(names, sections[i]) != key {
        assert sections[..n][i] in sections[..n];
      }
    }
  }

  lemma NewestFalls(names: Names, units: seq<Unit>)
    requires NewestFirst(names, units)
    ensures DatesFall(names, units)
  {
    var dates: seq<nat> := seq(|units|, k requires 0 <= k < |units| => DateOf(names, units[k]));
    var i, j :| 0 <= i < j < |units| && DateOf(names, units[i]) != DateOf(names, units[j]);
    assert dates[i] != dates[j];
    assert DatesAre(names, units, dates);
  }

  lemma FallingIsNewest(names: Names, units: seq<Unit>)
    requires DatesFall(names, units)
    ensures NewestFirst(names, units)
  {
    var dates: seq<nat> :| DatesAre(names, units, dates) && Falls(dates);
    assert forall k :: 0 <= k < |units| ==> names.date(units[k].lines).Some?;
    var i, j :| 0 <= i < j < |dates| && dates[i] != dates[j];
    assert DateOf(names, units[i]) != DateOf(names, units[j]);
  }

  lemma FallsIsNewest(names: Names, units: seq<Unit>)
    ensures NewestFirst(names, units) <==> DatesFall(names, units)
  {
    if NewestFirst(names, units) { NewestFalls(names, units); }
    if DatesFall(names, units) { FallingIsNewest(names, units); }
  }

  lemma SortedIs(names: Names, kept: seq<Unit>, newest: bool)
    requires AllDated(names, kept)
    ensures InDateOrder(names, ByDate(names, kept, newest), kept, newest)
  {
    SortOrders(names, kept, newest, 0);
    forall date ensures OnDate(names, Sort(names, kept, newest), date) == OnDate(names, kept, date) {
      SortOrders(names, kept, newest, date);
    }
  }

  /** Every section of a combined page is so, and there is one for each key, in the order keys first appear. */
  lemma CombinedOrder(names: Names, bodies: seq<Body>, dateOrder: bool)
    ensures var sections := Combine(names, bodies, dateOrder).sections;
            && Keyed(names, sections, Order(names, AllSections(bodies)))
            && forall s :: s in sections ==> CombinedWell(names, AllSections(bodies), s, dateOrder)
  {
    hide Dedupe, Gather, ByDate, NewestFirst, DatesFall, InDateOrder, FirstUnder;
    var all, r := AllSections(bodies), Combine(names, bodies, dateOrder).sections;
    var keys := Order(names, all);
    CombinedKeyed(names, all, dateOrder);
    forall k | 0 <= k < |r| ensures CombinedWell(names, all, r[k], dateOrder) {
      assert r[k] == CombinedSection(names, all, keys[k], dateOrder);
      OneCombined(names, all, keys[k], dateOrder);
    }
  }

  lemma OneCombined(names: Names, sections: seq<Section>, key: SectionKey, dateOrder: bool)
    requires key in Order(names, sections)
    ensures CombinedWell(names, sections, CombinedSection(names, sections, key, dateOrder), dateOrder)
  {
    hide Dedupe, Gather, NewestFirst, DatesFall, InDateOrder, FirstUnder;
    var j := FirstOfIs(names, sections, key);
    var kept := Dedupe(names, Gather(names, sections, key), key == Some(CONNECTIONS));
    CombinedKey(names, sections, key, dateOrder);
    FallsIsNewest(names, sections[j].units);
    if dateOrder && AllDated(names, kept) { SortedIs(names, kept, DatesFall(names, sections[j].units)); }
  }

  /** The title of a combined page is the first there is. */
  lemma CombinedTitle(names: Names, bodies: seq<Body>, dateOrder: bool)
    ensures var title := Combine(names, bodies, dateOrder).title;
            if title == "" then forall b :: b in bodies ==> b.title == ""
            else exists k :: 0 <= k < |bodies| && bodies[k].title == title
                   && forall i :: 0 <= i < k ==> bodies[i].title == ""
  {
    FirstTitleIs(bodies);
  }

  lemma {:induction false} FirstTitleIs(bodies: seq<Body>)
    ensures var title := FirstTitle(bodies);
            if title == "" then forall b :: b in bodies ==> b.title == ""
            else exists k :: 0 <= k < |bodies| && bodies[k].title == title
                   && forall i :: 0 <= i < k ==> bodies[i].title == ""
  {
    if bodies != [] && bodies[0].title == "" {
      var rest := bodies[1..];
      FirstTitleIs(rest);
      if FirstTitle(rest) != "" {
        var k :| 0 <= k < |rest| && rest[k].title == FirstTitle(rest) && forall i :: 0 <= i < k ==> rest[i].title == "";
        assert bodies[k + 1] == rest[k];
        assert forall i :: 0 < i < k + 1 ==> bodies[i] == rest[i - 1];
      }
    }
  }

  /** Every part is read, as its own layer's. */
  lemma {:induction false} PartsAreParsed(parts: seq<Part>)
    ensures |ParseParts(parts)| == |parts|
    ensures forall k :: 0 <= k < |parts| ==> ParseParts(parts)[k] == Parse(parts[k].text, parts[k].layer)
  {
    hide Parse;
    if parts != [] { PartsAreParsed(parts[..|parts| - 1]); }
  }
}
