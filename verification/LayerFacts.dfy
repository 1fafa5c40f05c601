/** What keeping the first of each key and gathering sections by heading do to units. */
module LayerFacts {
  import opened Options
  import opened PageBodies
  import opened BodyRender
  import opened LayerPages

  // ---- keeping the first --------------------------------------------------------------------------

  predicate DistinctKeys(names: Names, units: seq<Unit>) {
    forall i, j :: 0 <= i < j < |units| ==> KeyOf(names, units[i]) != KeyOf(names, units[j])
  }

  predicate DistinctLinks(names: Names, units: seq<Unit>, connections: bool) {
    forall i, j :: 0 <= i < j < |units| && LinkOf(names, units[i], connections).Some? ==>
      LinkOf(names, units[i], connections) != LinkOf(names, units[j], connections)
  }

  predicate HasKey(names: Names, units: seq<Unit>, key: string) {
    exists i :: 0 <= i < |units| && KeyOf(names, units[i]) == key
  }

  predicate HasLink(names: Names, units: seq<Unit>, connections: bool, link: string) {
    exists i :: 0 <= i < |units| && LinkOf(names, units[i], connections) == Some(link)
  }

  /** A unit is shown: by its key, or, for a Connections item, by another item that links to the same page. */
  predicate Shows(names: Names, units: seq<Unit>, u: Unit, connections: bool) {
    || HasKey(names, units, KeyOf(names, u))
    || (LinkOf(names, u, connections).Some? && HasLink(names, units, connections, LinkOf(names, u, connections).value))
  }

  ghost predicate KeptOk(names: Names, k: Kept, connections: bool) {
    && DistinctKeys(names, k.units) && DistinctLinks(names, k.units, connections)
    && (forall key :: key in k.seen <==> HasKey(names, k.units, key))
    && (forall link :: link in k.targets <==> HasLink(names, k.units, connections, link))
  }

  lemma HasMore(names: Names, units: seq<Unit>, u: Unit, connections: bool)
    ensures forall key :: HasKey(names, units + [u], key) <==> HasKey(names, units, key) || KeyOf(names, u) == key
    ensures forall link :: HasLink(names, units + [u], connections, link) <==>
              HasLink(names, units, connections, link) || LinkOf(names, u, connections) == Some(link)
  {
    var more := units + [u];
    assert more[|units|] == u;
    forall key ensures HasKey(names, more, key) <==> HasKey(names, units, key) || KeyOf(names, u) == key {
      if HasKey(names, units, key) {
        var i :| 0 <= i < |units| && KeyOf(names, units[i]) == key;
        assert more[i] == units[i];
      }
    }
    forall link ensures HasLink(names, more, connections, link) <==>
      HasLink(names, units, connections, link) || LinkOf(names, u, connections) == Some(link)
    {
      if HasLink(names, units, connections, link) {
        var i :| 0 <= i < |units| && LinkOf(names, units[i], connections) == Some(link);
        assert more[i] == units[i];
      }
    }
  }

  lemma TakeKeeps(names: Names, k: Kept, u: Unit, connections: bool)
    requires KeptOk(names, k, connections)
    ensures KeptOk(names, Take(names, k, u, connections), connections)
  {
    HasMore(names, k.units, u, connections);
    var link := LinkOf(names, u, connections);
    if KeyOf(names, u) !in k.seen && !(link.Some? && link.value in k.targets) {
      var more := k.units + [u];
      forall i, j | 0 <= i < j < |more|
        ensures KeyOf(names, more[i]) != KeyOf(names, more[j])
        ensures LinkOf(names, more[i], connections).Some? ==>
                LinkOf(names, more[i], connections) != LinkOf(names, more[j], connections)
      {
        if j == |k.units| {
          assert HasKey(names, k.units, KeyOf(names, k.units[i]));
          if LinkOf(names, more[i], connections).Some? {
            assert HasLink(names, k.units, connections, LinkOf(names, k.units[i], connections).value);
          }
        }
      }
    }
  }

  lemma {:induction false} TakeAllOk(names: Names, units: seq<Unit>, connections: bool)
    ensures KeptOk(names, TakeAll(names, units, connections), connections)
  {
    if units != [] {
      var n := |units| - 1;
      TakeAllOk(names, units[..n], connections);
      TakeKeeps(names, TakeAll(names, units[..n], connections), units[n], connections);
    }
  }

  lemma TakeShows(names: Names, k: Kept, u: Unit, v: Unit, connections: bool)
    requires KeptOk(names, k, connections) && (u == v || Shows(names, k.units, v, connections))
    ensures Shows(names, Take(names, k, u, connections).units, v, connections)
  {
    HasMore(names, k.units, u, connections);
  }

  /** Nothing is lost: every unit is shown. */
  lemma {:induction false} DedupeShows(names: Names, units: seq<Unit>, connections: bool, i: nat)
    requires i < |units|
    ensures Shows(names, Dedupe(names, units, connections), units[i], connections)
  {
    var n := |units| - 1;
    TakeAllOk(names, units[..n], connections);
    if i < n { DedupeShows(names, units[..n], connections, i); }
    TakeShows(names, TakeAll(names, units[..n], connections), units[n], units[i], connections);
  }

  /** Nothing is made up, and what a key's first unit shows does not depend on what follows. */
  lemma {:induction false} DedupeFrom(names: Names, a: seq<Unit>, b: seq<Unit>, connections: bool)
    ensures var k, all := TakeAll(names, a, connections), TakeAll(names, a + b, connections);
            && k.units <= all.units && k.seen <= all.seen
            && (forall i :: |k.units| <= i < |all.units| ==> all.units[i] in b && KeyOf(names, all.units[i]) !in k.seen)
  {
    if b == [] {
      assert a + b == a;
    } else {
      var n := |b| - 1;
      assert (a + b)[..|a + b| - 1] == a + b[..n];
      DedupeFrom(names, a, b[..n], connections);
      var k, before, all := TakeAll(names, a, connections), TakeAll(names, a + b[..n], connections),
          TakeAll(names, a + b, connections);
      forall i | |k.units| <= i < |all.units| ensures all.units[i] in b && KeyOf(names, all.units[i]) !in k.seen {
        if i < |before.units| { assert all.units[i] == before.units[i]; }
      }
    }
  }

  lemma DedupeIn(names: Names, units: seq<Unit>, connections: bool, i: nat)
    requires i < |Dedupe(names, units, connections)|
    ensures Dedupe(names, units, connections)[i] in units
  {
    DedupeFrom(names, [], units, connections);
    assert [] + units == units;
  }

  /** Units with new keys, and for Connections items new link targets, are all kept. */
  predicate AllNew(names: Names, a: seq<Unit>, b: seq<Unit>, connections: bool) {
    && DistinctKeys(names, b) && DistinctLinks(names, b, connections)
    && (forall i :: 0 <= i < |b| ==> !HasKey(names, a, KeyOf(names, b[i])))
    && (forall i :: 0 <= i < |b| && LinkOf(names, b[i], connections).Some? ==>
         !HasLink(names, a, connections, LinkOf(names, b[i], connections).value))
  }

  lemma AllNewFront(names: Names, a: seq<Unit>, b: seq<Unit>, connections: bool)
    requires AllNew(names, a, b, connections) && b != []
    ensures AllNew(names, a, b[..|b| - 1], connections)
    ensures !HasKey(names, b[..|b| - 1], KeyOf(names, b[|b| - 1]))
    ensures LinkOf(names, b[|b| - 1], connections).Some? ==>
              !HasLink(names, b[..|b| - 1], connections, LinkOf(names, b[|b| - 1], connections).value)
  {
  }

  lemma TakeNew(names: Names, k: Kept, u: Unit, connections: bool)
    requires KeptOk(names, k, connections) && !Shows(names, k.units, u, connections)
    ensures Take(names, k, u, connections).units == k.units + [u]
  {
  }

  lemma HasEither(names: Names, a: seq<Unit>, b: seq<Unit>, key: string, connections: bool, link: string)
    ensures HasKey(names, a + b, key) ==> HasKey(names, a, key) || HasKey(names, b, key)
    ensures HasLink(names, a + b, connections, link) ==>
            HasLink(names, a, connections, link) || HasLink(names, b, connections, link)
  {
    if HasKey(names, a + b, key) {
      var i :| 0 <= i < |a + b| && KeyOf(names, (a + b)[i]) == key;
      if i >= |a| { assert b[i - |a|] == (a + b)[i]; }
    }
    if HasLink(names, a + b, connections, link) {
      var i :| 0 <= i < |a + b| && LinkOf(names, (a + b)[i], connections) == Some(link);
      if i >= |a| { assert b[i - |a|] == (a + b)[i]; }
    }
  }

  lemma DedupeHas(names: Names, a: seq<Unit>, connections: bool, key: string, link: string)
    ensures HasKey(names, Dedupe(names, a, connections), key) ==> HasKey(names, a, key)
    ensures HasLink(names, Dedupe(names, a, connections), connections, link) ==> HasLink(names, a, connections, link)
  {
    var r := Dedupe(names, a, connections);
    if HasKey(names, r, key) {
      var i :| 0 <= i < |r| && KeyOf(names, r[i]) == key;
      DedupeIn(names, a, connections, i);
    }
    if HasLink(names, r, connections, link) {
      var i :| 0 <= i < |r| && LinkOf(names, r[i], connections) == Some(link);
      DedupeIn(names, a, connections, i);
    }
  }

  lemma {:induction false} DedupeNew(names: Names, a: seq<Unit>, b: seq<Unit>, connections: bool)
    requires AllNew(names, a, b, connections)
    ensures Dedupe(names, a + b, connections) == Dedupe(names, a, connections) + b
  {
    if b == [] {
      assert a + b == a;
    } else {
      var n := |b| - 1;
      AllNewFront(names, a, b, connections);
      DedupeNew(names, a, b[..n], connections);
      assert (a + b)[..|a + b| - 1] == a + b[..n];
      var before := TakeAll(names, a + b[..n], connections);
      TakeAllOk(names, a + b[..n], connections);
      NotShown(names, a, b, connections);
      TakeNew(names, before, b[n], connections);
      assert b == b[..n] + [b[n]];
    }
  }

  lemma NotShown(names: Names, a: seq<Unit>, b: seq<Unit>, connections: bool)
    requires AllNew(names, a, b, connections) && b != []
    ensures !Shows(names, Dedupe(names, a, connections) + b[..|b| - 1], b[|b| - 1], connections)
  {
    var n := |b| - 1;
    var key, link := KeyOf(names, b[n]), LinkOf(names, b[n], connections);
    AllNewFront(names, a, b, connections);
    DedupeHas(names, a, connections, key, if link.Some? then link.value else "");
    HasEither(names, Dedupe(names, a, connections), b[..n], key, connections, if link.Some? then link.value else "");
  }

  /** Outside Connections, and there for all but items with a link, every unit is shown by its own key. */
  lemma ShownByKey(names: Names, units: seq<Unit>, connections: bool, i: nat)
    requires i < |units|
    requires !connections || units[i].kind != Item || names.target(units[i].lines).None?
    ensures HasKey(names, Dedupe(names, units, connections), KeyOf(names, units[i]))
  {
    DedupeShows(names, units, connections, i);
  }

  /** In Connections no two items shown link to the same page. */
  lemma LinksOnce(names: Names, units: seq<Unit>, i: nat, j: nat)
    requires var shown := Dedupe(names, units, true);
             i < j < |shown| && shown[i].kind == Item && shown[j].kind == Item
             && names.target(shown[i].lines).Some?
    ensures var shown := Dedupe(names, units, true); names.target(shown[i].lines) != names.target(shown[j].lines)
  {
    TakeAllOk(names, units, true);
    var shown := Dedupe(names, units, true);
    assert LinkOf(names, shown[i], true) == names.target(shown[i].lines);
    assert LinkOf(names, shown[j], true) == names.target(shown[j].lines);
  }
}
