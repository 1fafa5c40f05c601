/** Sections under one key, across bodies, combining, splitting and settling. */
module LayerSections {
  import opened Options
  import opened PageBodies
  import opened BodyRender
  import opened BodyRoundTrip
  import opened LayerPages
  import opened LayerFacts

  lemma {:induction false} GatherAppends(names: Names, a: seq<Section>, b: seq<Section>, key: SectionKey)
    ensures Gather(names, a + b, key) == Gather(names, a, key) + Gather(names, b, key)
  {
    if b == [] {
      assert a + b == a;
    } else {
      var n := |b| - 1;
      GatherAppends(names, a, b[..n], key);
      assert (a + b)[..|a + b| - 1] == a + b[..n];
    }
  }

  lemma GatherOne(names: Names, sections: seq<Section>, s: Section, key: SectionKey)
    ensures Gather(names, sections + [s], key) == Gather(names, sections, key) + if SectionKeyOf(names, s) == key
            then s.units else []
  {
    assert (sections + [s])[..|sections|] == sections;
  }

  // ---- the order of keys ----------------------------------------------------------------------------

  predicate Distinct<T(==)>(s: seq<T>) { forall i, j :: 0 <= i < j < |s| ==> s[i] != s[j] }

  lemma {:induction false} OrderOk(names: Names, sections: seq<Section>)
    ensures Distinct(Order(names, sections))
    ensures forall s :: s in sections ==> SectionKeyOf(names, s) in Order(names, sections)
    ensures forall key :: key in Order(names, sections) ==> exists s :: s in sections && SectionKeyOf(names, s) == key
  {
    if sections != [] {
      var n := |sections| - 1;
      OrderOk(names, sections[..n]);
      assert sections == sections[..n] + [sections[n]];
    }
  }

  lemma {:induction false} OrderExtends(names: Names, a: seq<Section>, b: seq<Section>)
    ensures Order(names, a) <= Order(names, a + b)
  {
    if b == [] {
      assert a + b == a;
    } else {
      OrderExtends(names, a, b[..|b| - 1]);
      assert (a + b)[..|a + b| - 1] == a + b[..|b| - 1];
    }
  }

  lemma {:induction false} NoneGathered(names: Names, sections: seq<Section>, key: SectionKey)
    requires key !in Order(names, sections)
    ensures Gather(names, sections, key) == []
  {
    if sections != [] {
      NoneGathered(names, sections[..|sections| - 1], key);
    }
  }

  // ---- combining ------------------------------------------------------------------------------------

  lemma CombinedKey(names: Names, sections: seq<Section>, key: SectionKey, dateOrder: bool)
    requires key in Order(names, sections)
    ensures SectionKeyOf(names, CombinedSection(names, sections, key, dateOrder)) == key
  {
  }

  predicate Keyed(names: Names, sections: seq<Section>, keys: seq<SectionKey>) {
    && |sections| == |keys| && Distinct(keys)
    && forall k :: 0 <= k < |keys| ==> SectionKeyOf(names, sections[k]) == keys[k]
  }

  lemma {:induction false} GatherKeyed(names: Names, sections: seq<Section>, keys: seq<SectionKey>, key: SectionKey)
    requires Keyed(names, sections, keys)
    ensures forall k :: 0 <= k < |keys| && keys[k] == key ==> Gather(names, sections, key) == sections[k].units
    ensures key !in keys ==> Gather(names, sections, key) == []
  {
    if sections != [] {
      var n := |sections| - 1;
      GatherKeyed(names, sections[..n], keys[..n], key);
      if key == keys[n] {
        assert key !in keys[..n];
      }
    }
  }

  lemma CombinedKeyed(names: Names, sections: seq<Section>, dateOrder: bool)
    ensures Keyed(names, CombineSections(names, sections, Order(names, sections), dateOrder), Order(names, sections))
  {
    OrderOk(names, sections);
    var keys := Order(names, sections);
    forall k | 0 <= k < |keys|
      ensures SectionKeyOf(names, CombineSections(names, sections, keys, dateOrder)[k]) == keys[k]
    {
      CombinedKey(names, sections, keys[k], dateOrder);
    }
  }

  /** Under one key, combined bodies have the first unit of each key among theirs. */
  lemma GatherCombined(names: Names, bodies: seq<Body>, key: SectionKey, dateOrder: bool)
    ensures var units := Dedupe(names, Gather(names, AllSections(bodies), key), key == Some(CONNECTIONS));
            var got := Gather(names, Combine(names, bodies, dateOrder).sections, key);
            if dateOrder then multiset(got) == multiset(units) else got == units
  {
    hide Gather, Order, CombineSections;
    var sections := AllSections(bodies);
    CombinedKeyed(names, sections, dateOrder);
    GatherKeyed(names, Combine(names, bodies, dateOrder).sections, Order(names, sections), key);
    if key !in Order(names, sections) {
      NoneGathered(names, sections, key);
    }
  }

  // ---- splitting --------------------------------------------------------------------------------------

  lemma {:induction false} WithoutAppends(names: Names, a: seq<Unit>, b: seq<Unit>, known: set<string>)
    ensures Without(names, a + b, known) == Without(names, a, known) + Without(names, b, known)
  {
    if b == [] {
      assert a + b == a;
    } else {
      WithoutAppends(names, a, b[..|b| - 1], known);
      assert (a + b)[..|a + b| - 1] == a + b[..|b| - 1];
    }
  }

  lemma {:induction false} WithoutAll(names: Names, units: seq<Unit>, known: set<string>)
    requires forall k :: 0 <= k < |units| ==> KeyOf(names, units[k]) in known
    ensures Without(names, units, known) == []
  {
    if units != [] { WithoutAll(names, units[..|units| - 1], known); }
  }

  lemma {:induction false} WithoutNone(names: Names, units: seq<Unit>, known: set<string>)
    requires forall k :: 0 <= k < |units| ==> KeyOf(names, units[k]) !in known
    ensures Without(names, units, known) == units
  {
    if units != [] { WithoutNone(names, units[..|units| - 1], known); }
  }

  lemma {:induction false} WithoutIs(names: Names, units: seq<Unit>, known: set<string>, u: Unit)
    ensures u in Without(names, units, known) <==> u in units && KeyOf(names, u) !in known
  {
    if units != [] {
      WithoutIs(names, units[..|units| - 1], known, u);
      assert units == units[..|units| - 1] + [units[|units| - 1]];
    }
  }

  lemma {:induction false} GatherRest(names: Names, sections: seq<Section>, known: set<string>, key: SectionKey)
    ensures Gather(names, Rest(names, sections, known), key) == Without(names, Gather(names, sections, key), known)
  {
    if sections != [] {
      var n := |sections| - 1;
      var last := sections[n];
      var added := if SectionKeyOf(names, last) == key then last.units else [];
      GatherRest(names, sections[..n], known, key);
      WithoutAppends(names, Gather(names, sections[..n], key), added, known);
      var units := Without(names, last.units, known);
      GatherOne(names, Rest(names, sections[..n], known), Section(last.heading, units), key);
      assert SectionKeyOf(names, Section(last.heading, units)) == SectionKeyOf(names, last);
      if units == [] { assert Rest(names, sections, known) == Rest(names, sections[..n], known); }
    }
  }

  // ---- settling ---------------------------------------------------------------------------------------

  lemma {:induction false} SettleKeys(names: Names, sections: seq<Section>)
    ensures Settle(sections) == [] <==> forall k :: 0 <= k < |sections| ==> sections[k].units == []
  {
    if sections != [] {
      var n := |sections| - 1;
      SettleKeys(names, sections[..n]);
      assert sections == sections[..n] + [sections[n]];
    }
  }

  /** No units without a heading come after a section with units. */
  predicate LeadsFirst(sections: seq<Section>) {
    forall i, j :: 0 <= i < j < |sections| && sections[i].units != [] && sections[j].heading.None? ==>
        sections[j].units == []
  }

  lemma {:induction false} GatherSettled(names: Names, sections: seq<Section>, key: SectionKey)
    requires LeadsFirst(sections)
    ensures Gather(names, Settle(sections), key) == Gather(names, sections, key)
  {
    if sections != [] {
      var n := |sections| - 1;
      var last := sections[n];
      GatherSettled(names, sections[..n], key);
      SettleKeys(names, sections[..n]);
      var before := Settle(sections[..n]);
      if last.units != [] {
        GatherOne(names, before, last, key);
      }
    }
  }

  /** Otherwise they end up under a heading. */
  lemma {:induction false} SettledAway(names: Names, sections: seq<Section>)
    ensures Settle(sections) != [] ==>
              forall k :: 0 < k < |Settle(sections)| ==> Settle(sections)[k].heading.Some?
    ensures Settle(sections) != [] ==>
              exists k :: 0 <= k < |sections| && sections[k].units != []
                && Settle(sections)[0].heading == sections[k].heading
                          && forall i :: 0 <= i < k ==> sections[i].units == []
  {
    if sections != [] {
      var n := |sections| - 1;
      SettledAway(names, sections[..n]);
      SettleKeys(names, sections[..n]);
      var before := Settle(sections[..n]);
      if before == [] {
        assert forall i :: 0 <= i < n ==> sections[i] == sections[..n][i];
      } else {
        var k :| 0 <= k < n && sections[..n][k].units != [] && before[0].heading == sections[..n][k].heading
                 && forall i :: 0 <= i < k ==> sections[..n][i].units == [];
        assert forall i :: 0 <= i < k ==> sections[i] == sections[..n][i];
        assert sections[k].units != [] && Settle(sections)[0].heading == sections[k].heading;
      }
    }
  }

  lemma {:induction false} NoLead(names: Names, sections: seq<Section>)
    requires forall k :: 0 <= k < |sections| ==> sections[k].heading.Some?
    ensures Gather(names, sections, None) == []
  {
    if sections != [] { NoLead(names, sections[..|sections| - 1]); }
  }
}
