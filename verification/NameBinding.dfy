/** Whether a sentence's subject names every one of the pages to be merged: a backtracking search with a budget. */
module NameBinding {
  import opened SearchCost

  const BUDGET := 10000

  type Word = string
  type Name = seq<Word>

  /** One occurrence of a page's name in the subject. */
  datatype Match = Match(start: nat, stop: nat, name: Name)

  // ---- what the search is for -------------------------------------------------------------------

  predicate StandsAt(a: Name, b: Name, i: int) { 0 <= i <= |b| - |a| && b[i..i + |a|] == a }

  predicate Occurs(a: Name, b: Name) { exists i :: 0 <= i <= |b| - |a| && StandsAt(a, b, i) }

  /** One name stands inside the other. */
  predicate Nested(a: Name, b: Name) { Occurs(a, b) || Occurs(b, a) }

  predicate IsMatch(words: seq<Word>, names: seq<Name>, m: Match) {
    m.start <= m.stop <= |words| && m.name in names && words[m.start..m.stop] == m.name
  }

  ghost predicate Unmatched(words: seq<Word>, names: seq<Name>) { forall m :: !IsMatch(words, names, m) }

  predicate Holds(m: Match, i: int) { m.start <= i < m.stop }

  predicate Overlap(a: Match, b: Match) { exists i: nat :: i < a.stop && Holds(a, i) && Holds(b, i) }

  predicate Clash(a: Match, b: Match) { Overlap(a, b) || Nested(a.name, b.name) }

  ghost predicate Compatible(chosen: seq<Match>) {
    forall i, j :: 0 <= i < j < |chosen| ==> !Clash(chosen[i], chosen[j])
  }

  ghost predicate Covered(chosen: seq<Match>, index: nat) {
    exists k :: 0 <= k < |chosen| && Holds(chosen[k], index)
  }

  /** What the names leave of the subject is one or more "and". */
  ghost predicate OnlyAnds(words: seq<Word>, chosen: seq<Match>) {
    && (exists i :: 0 <= i < |words| && !Covered(chosen, i))
    && (forall i :: 0 <= i < |words| && !Covered(chosen, i) ==> words[i] == "and")
  }

  /** One occurrence of a name of each page, no two sharing a word, no chosen name inside another. */
  ghost predicate Binds(words: seq<Word>, pages: seq<seq<Name>>, chosen: seq<Match>) {
    && |chosen| == |pages| && Compatible(chosen) && OnlyAnds(words, chosen)
    && forall k :: 0 <= k < |pages| ==> IsMatch(words, pages[k], chosen[k])
  }

  ghost predicate Bindable(words: seq<Word>, pages: seq<seq<Name>>) { exists chosen :: Binds(words, pages, chosen) }

  // ---- how often names stand in the subject -----------------------------------------------------------

  /** The places before `k` where a name stands. */
  function PlacesBefore(words: seq<Word>, name: Name, k: nat): nat {
    if k == 0 then 0 else PlacesBefore(words, name, k - 1) + if StandsAt(name, words, k - 1) then 1 else 0
  }

  /** The occurrences of a page's names. */
  function MatchCount(words: seq<Word>, names: seq<Name>): nat {
    if names == [] then 0
    else MatchCount(words, names[..|names| - 1]) + PlacesBefore(words, names[|names| - 1], |words| + 1)
  }

  function MatchCounts(words: seq<Word>, pages: seq<seq<Name>>): (counts: seq<nat>)
    ensures |counts| == |pages| && forall k :: 0 <= k < |pages| ==> counts[k] == MatchCount(words, pages[k])
  {
    seq(|pages|, k requires 0 <= k < |pages| => MatchCount(words, pages[k]))
  }

  lemma {:induction false} NoPlaces(words: seq<Word>, name: Name, from: nat, k: nat)
    requires from <= k && from + |name| > |words|
    ensures PlacesBefore(words, name, k) == PlacesBefore(words, name, from)
  {
    if from < k { NoPlaces(words, name, from, k - 1); }
  }

  // ---- small tests ------------------------------------------------------------------------------------

  method FindInside(short: Name, long: Name) returns (found: bool)
    requires |short| <= |long|
    ensures found == Occurs(short, long)
  {
    var index := 0;
    found := false;
    while index <= |long| - |short| && !found
      invariant 0 <= index <= |long| - |short| + 1
      invariant found ==> Occurs(short, long)
      invariant !found ==> forall i :: 0 <= i < index ==> !StandsAt(short, long, i)
      decreases |long| - index, !found
    {
      found := long[index..index + |short|] == short;
      assert found == StandsAt(short, long, index);
      index := index + 1;
    }
  }

  /** The shorter sequence stands somewhere in the longer. */
  method SequenceInside(left: Name, right: Name) returns (inside: bool)
    ensures inside == Nested(left, right)
  {
    if |left| > |right| {
      inside := FindInside(right, left);
    } else {
      inside := FindInside(left, right);
      if Occurs(right, left) {
        assert StandsAt(right, left, 0) && |left| == |right|;
        assert StandsAt(left, right, 0);
      }
    }
  }

  method PageMatches(words: seq<Word>, names: seq<Name>) returns (matches: seq<Match>)
    ensures forall m :: m in matches <==> IsMatch(words, names, m)
    ensures |matches| == MatchCount(words, names)
  {
    matches := [];
    var k := 0;
    while k < |names|
      invariant k <= |names| && |matches| == MatchCount(words, names[..k])
      invariant forall m :: m in matches <==> IsMatch(words, names[..k], m)
    {
      var found := NameMatches(words, names[k]);
      assert names[..k + 1] == names[..k] + [names[k]];
      forall m ensures m in matches + found <==> IsMatch(words, names[..k + 1], m) {
        assert IsMatch(words, names[..k + 1], m) <==> IsMatch(words, names[..k], m) || IsMatch(words, [names[k]], m);
      }
      matches := matches + found;
      k := k + 1;
    }
    assert names[..k] == names;
  }

  method NameMatches(words: seq<Word>, name: Name) returns (matches: seq<Match>)
    ensures forall m :: m in matches <==> IsMatch(words, [name], m)
    ensures |matches| == PlacesBefore(words, name, |words| + 1)
  {
    matches := [];
    var start := 0;
    while start < |words| - |name| + 1
      invariant 0 <= start && (start <= |words| - |name| + 1 || start == 0)
      invariant |matches| == PlacesBefore(words, name, start)
      invariant forall m :: m in matches <==> IsMatch(words, [name], m) && m.start < start
    {
      ghost var before := matches;
      if words[start..start + |name|] == name {
        matches := matches + [Match(start, start + |name|, name)];
      }
      forall m ensures m in matches <==> IsMatch(words, [name], m) && m.start < start + 1 {
        if IsMatch(words, [name], m) && m.start == start {
          assert |words[m.start..m.stop]| == |name|;
          assert m == Match(start, start + |name|, name);
        }
      }
      start := start + 1;
    }
    NoPlaces(words, name, start, |words| + 1);
    forall m | IsMatch(words, [name], m) ensures m.start < start {
      assert |words[m.start..m.stop]| == |name|;
    }
  }

  // ---- the search -----------------------------------------------------------------------------------

  /** A full choice, one from each list. */
  ghost predicate Solves(words: seq<Word>, lists: seq<seq<Match>>, full: seq<Match>) {
    && |full| == |lists| && Compatible(full) && OnlyAnds(words, full)
    && forall k :: 0 <= k < |lists| ==> full[k] in lists[k]
  }

  /** `used` and `names` describe the choices made so far. */
  ghost predicate Describes(chosen: seq<Match>, used: set<nat>, names: seq<Name>) {
    && |names| == |chosen| && (forall k :: 0 <= k < |chosen| ==> names[k] == chosen[k].name)
    && (forall i: nat :: i in used <==> Covered(chosen, i))
  }

  function Counts(lists: seq<seq<Match>>): (counts: seq<nat>)
    ensures |counts| == |lists| && forall k :: 0 <= k < |lists| ==> counts[k] == |lists[k]|
  {
    seq(|lists|, k requires 0 <= k < |lists| => |lists[k]|)
  }

  function Max(a: nat, b: nat): nat { if a < b then b else a }

  function Positions(m: Match): set<nat> { set i: nat | i < m.stop && Holds(m, i) }

  class Search {
    const words: seq<Word>
    const lists: seq<seq<Match>>
    var states: nat

    constructor (words: seq<Word>, lists: seq<seq<Match>>)
      ensures this.words == words && this.lists == lists && states == 0
    {
      this.words, this.lists, states := words, lists, 0;
    }

    /** Whether what is left of the subject is one or more "and". */
    method LeavesAnds(used: set<nat>, ghost chosen: seq<Match>, names: seq<Name>) returns (ok: bool)
      requires Describes(chosen, used, names)
      ensures ok == OnlyAnds(words, chosen)
    {
      var any, all := false, true;
      var i: nat := 0;
      while i < |words|
        invariant i <= |words|
        invariant any == exists k :: 0 <= k < i && !Covered(chosen, k)
        invariant all == forall k :: 0 <= k < i && !Covered(chosen, k) ==> words[k] == "and"
      {
        if i !in used {
          any := true;
          all := all && words[i] == "and";
        }
        i := i + 1;
      }
      ok := any && all;
    }

    /** Whether a match shares no word with those chosen and nests with none of their names. */
    method Fits(m: Match, used: set<nat>, names: seq<Name>, ghost chosen: seq<Match>) returns (ok: bool)
      requires Describes(chosen, used, names)
      ensures ok == forall k :: 0 <= k < |chosen| ==> !Clash(chosen[k], m)
    {
      ok := Positions(m) * used == {};
      if ok {
        forall k, i: nat | 0 <= k < |chosen| && Holds(m, i) ensures !Holds(chosen[k], i) {
          assert i in Positions(m) && i !in Positions(m) * used;
          assert i !in used;
        }
      } else {
        ghost var i :| i in Positions(m) * used;
        ghost var k :| 0 <= k < |chosen| && Holds(chosen[k], i);
        assert Overlap(chosen[k], m);
      }
      var k := 0;
      while k < |names| && ok
        invariant k <= |names|
        invariant ok ==>
                  (forall j :: 0 <= j < |chosen| ==> !Overlap(chosen[j], m))
                  && (forall j :: 0 <= j < k ==> !Nested(chosen[j].name, m.name))
        invariant !ok ==> exists j :: 0 <= j < |chosen| && Clash(chosen[j], m)
      {
        var inside := SequenceInside(m.name, names[k]);
        if inside { ok := false; assert Clash(chosen[k], m); }
        k := k + 1;
      }
    }

    method Assign(offset: nat, used: set<nat>, names: seq<Name>, ghost chosen: seq<Match>) returns (found: bool)
      requires offset == |chosen| <= |lists| && Describes(chosen, used, names) && Compatible(chosen)
      requires forall k :: 0 <= k < offset ==> chosen[k] in lists[k]
      modifies this
      ensures states > old(states)
      ensures states <= old(states) + TreeSize(Counts(lists)[offset..])
      ensures states <= Max(old(states), BUDGET) + 1 + Total(Counts(lists)[offset..])
      ensures old(states) >= BUDGET ==> states == old(states) + 1
      ensures found ==> exists full :: chosen <= full && Solves(words, lists, full)
      ensures !found && states <= BUDGET ==> forall full :: chosen <= full ==> !Solves(words, lists, full)
      decreases |lists| - offset
    {
      hide TreeSize, Total, Clash, Describes;
      LevelCost(lists, offset);
      states := states + 1;
      found := false;
      if states > BUDGET { return; }
      if offset == |lists| {
        found := LeavesAnds(used, chosen, names);
        assert found ==> Solves(words, lists, chosen);
        forall full | chosen <= full && Solves(words, lists, full) ensures full == chosen {}
        return;
      }
      var k := 0;
      ghost var start, rest := states, Counts(lists)[offset + 1..];
      while k < |lists[offset]| && !found
        invariant k <= |lists[offset]| && states >= start
        invariant states <= start + k * TreeSize(rest)
        invariant states <= BUDGET + k + Total(rest)
        invariant found ==> exists full :: chosen <= full && Solves(words, lists, full)
        invariant !found && states <= BUDGET ==>
                    forall full :: chosen <= full && Solves(words, lists, full) ==> full[offset] !in lists[offset][..k]
      {
        Shares(k, TreeSize(rest));
        found := Try(lists[offset][k], offset, used, names, chosen);
        k := k + 1;
      }
      Shared(k, |lists[offset]|, TreeSize(rest));
      if !found && states <= BUDGET {
        assert lists[offset][..k] == lists[offset];
      }
    }

    /** One candidate: skipped if it clashes, else assigned and the rest searched. */
    method Try(m: Match, offset: nat, used: set<nat>, names: seq<Name>, ghost chosen: seq<Match>) returns (found: bool)
      requires offset == |chosen| < |lists| && Describes(chosen, used, names) && Compatible(chosen)
               && m in lists[offset]
      requires forall k :: 0 <= k < offset ==> chosen[k] in lists[k]
      modifies this
      ensures states >= old(states)
      ensures states <= old(states) + TreeSize(Counts(lists)[offset + 1..])
      ensures states <= Max(old(states) + 1, BUDGET + 1 + Total(Counts(lists)[offset + 1..]))
      ensures found ==> exists full :: chosen <= full && Solves(words, lists, full)
      ensures !found && states <= BUDGET ==> forall full :: chosen <= full && Solves(words, lists, full) ==>
              full[offset] != m
      decreases |lists| - offset, 0
    {
      hide Clash, OnlyAnds, Describes, Positions, TreeSize, Total;
      found := Fits(m, used, names, chosen);
      if found {
        Extends(chosen, used, names, m);
        found := Assign(offset + 1, used + Positions(m), names + [m.name], chosen + [m]);
        Chosen(words, lists, chosen, m);
      } else {
        Clashing(words, lists, chosen, m);
      }
    }
  }

  lemma Chosen(words: seq<Word>, lists: seq<seq<Match>>, chosen: seq<Match>, m: Match)
    requires |chosen| < |lists|
    ensures forall full :: Solves(words, lists, full) ==>
              (chosen + [m] <= full <==> chosen <= full && full[|chosen|] == m)
  {
    hide Clash, OnlyAnds;
    forall full | Solves(words, lists, full) && chosen <= full && full[|chosen|] == m ensures chosen + [m] <= full {
      assert full[..|chosen| + 1] == chosen + [m];
    }
  }

  lemma Clashing(words: seq<Word>, lists: seq<seq<Match>>, chosen: seq<Match>, m: Match)
    requires |chosen| < |lists| && exists k :: 0 <= k < |chosen| && Clash(chosen[k], m)
    ensures forall full :: chosen <= full && Solves(words, lists, full) ==> full[|chosen|] != m
  {
    hide Clash, OnlyAnds;
    var k :| 0 <= k < |chosen| && Clash(chosen[k], m);
    forall full | chosen <= full && Solves(words, lists, full) ensures full[|chosen|] != m {
      assert full[k] == chosen[k];
    }
  }

  lemma Shared(k: nat, n: nat, size: nat)
    requires k <= n
    ensures k * size <= n * size
  {
  }

  /** One list of candidates more. */
  lemma LevelCost(lists: seq<seq<Match>>, offset: nat)
    requires offset <= |lists|
    ensures var counts := Counts(lists);
            if offset == |lists| then TreeSize(counts[offset..]) == 1 && Total(counts[offset..]) == 0
            else
              && TreeSize(counts[offset..]) == 1 + |lists[offset]| * TreeSize(counts[offset + 1..])
              && Total(counts[offset..]) == |lists[offset]| + Total(counts[offset + 1..])
  {
    var counts := Counts(lists);
    if offset < |lists| {
      assert counts[offset..][0] == |lists[offset]| && counts[offset..][1..] == counts[offset + 1..];
    }
  }

  lemma Shares(k: nat, size: nat)
    ensures k * size + size == (k + 1) * size
  {
  }

  lemma Extends(chosen: seq<Match>, used: set<nat>, names: seq<Name>, m: Match)
    requires Describes(chosen, used, names)
    ensures Describes(chosen + [m], used + Positions(m), names + [m.name])
  {
    var more := chosen + [m];
    forall i: nat ensures i in used + Positions(m) <==> Covered(more, i) {
      if Covered(chosen, i) {
        var k :| 0 <= k < |chosen| && Holds(chosen[k], i);
        assert more[k] == chosen[k];
      }
      if i in Positions(m) { assert more[|chosen|] == m; }
    }
  }

  // ---- the whole test ---------------------------------------------------------------------------------

  /** The indices in the order the search takes the pages: fewest candidates first. */
  ghost predicate IsOrder(order: seq<nat>, n: nat) {
    && |order| == n && (forall k :: 0 <= k < n ==> order[k] < n)
    && (forall j, k :: 0 <= j < k < n ==> order[j] != order[k])
    && (forall i :: 0 <= i < n ==> i in order)
  }

  predicate ByCount(lists: seq<seq<Match>>, order: seq<nat>)
    requires forall k :: 0 <= k < |order| ==> order[k] < |lists|
  {
    forall j, k :: 0 <= j < k < |order| ==>
      |lists[order[j]]| < |lists[order[k]]| || (|lists[order[j]]| == |lists[order[k]]| && order[j] < order[k])
  }

  lemma InsertIsOrder(order: seq<nat>, at: nat, i: nat)
    requires IsOrder(order, i) && at <= i
    ensures IsOrder(order[..at] + [i] + order[at..], i + 1)
  {
    var more := order[..at] + [i] + order[at..];
    assert more[at] == i;
    forall x | 0 <= x < i ensures x in more {
      assert x in order;
      var k :| 0 <= k < i && order[k] == x;
      assert more[if k < at then k else k + 1] == x;
    }
  }

  lemma InsertByCount(lists: seq<seq<Match>>, order: seq<nat>, at: nat, i: nat)
    requires i < |lists| && at <= |order| && forall k :: 0 <= k < |order| ==> order[k] < i
    requires ByCount(lists, order)
    requires forall k :: at <= k < |order| ==> |lists[i]| < |lists[order[k]]|
    requires at > 0 ==> |lists[order[at - 1]]| <= |lists[i]|
    ensures forall k :: 0 <= k < |order| + 1 ==> (order[..at] + [i] + order[at..])[k] < |lists|
    ensures ByCount(lists, order[..at] + [i] + order[at..])
  {
  }

  /** The pages, fewest candidates first, and in their own order where equal. */
  method OrderByCount(lists: seq<seq<Match>>) returns (order: seq<nat>)
    ensures IsOrder(order, |lists|) && ByCount(lists, order)
  {
    order := [];
    var i := 0;
    while i < |lists|
      invariant i <= |lists| && IsOrder(order, i) && ByCount(lists, order)
    {
      var at := i;
      while at > 0 && |lists[i]| < |lists[order[at - 1]]|
        invariant 0 <= at <= i
        invariant forall k :: at <= k < i ==> |lists[i]| < |lists[order[k]]|
      {
        at := at - 1;
      }
      InsertIsOrder(order, at, i);
      InsertByCount(lists, order, at, i);
      order := order[..at] + [i] + order[at..];
      i := i + 1;
    }
  }

  function Pick(chosen: seq<Match>, order: seq<nat>): (r: seq<Match>)
    requires |order| == |chosen| && forall k :: 0 <= k < |order| ==> order[k] < |chosen|
    ensures |r| == |chosen| && forall k :: 0 <= k < |r| ==> r[k] == chosen[order[k]]
  {
    seq(|chosen|, k requires 0 <= k < |chosen| => chosen[order[k]])
  }

  lemma SameCover(a: seq<Match>, b: seq<Match>, i: nat)
    requires forall m :: m in a <==> m in b
    ensures Covered(a, i) <==> Covered(b, i)
  {
    if Covered(a, i) {
      var k :| 0 <= k < |a| && Holds(a[k], i);
      assert a[k] in b;
    }
    if Covered(b, i) {
      var k :| 0 <= k < |b| && Holds(b[k], i);
      assert b[k] in a;
    }
  }

  lemma ClashIsMutual(a: Match, b: Match)
    ensures Clash(a, b) <==> Clash(b, a)
  {
    if Overlap(a, b) {
      var i: nat :| i < a.stop && Holds(a, i) && Holds(b, i);
      assert i < b.stop;
    }
    if Overlap(b, a) {
      var i: nat :| i < b.stop && Holds(b, i) && Holds(a, i);
      assert i < a.stop;
    }
  }

  /** A choice taken in another order covers the same words and clashes no more. */
  lemma PickKeeps(words: seq<Word>, chosen: seq<Match>, order: seq<nat>)
    requires IsOrder(order, |chosen|) && Compatible(chosen)
    ensures Compatible(Pick(chosen, order)) && (OnlyAnds(words, Pick(chosen, order)) <==> OnlyAnds(words, chosen))
  {
    var r := Pick(chosen, order);
    forall j, k | 0 <= j < k < |r| ensures !Clash(r[j], r[k]) {
      ClashIsMutual(r[j], r[k]);
      assert order[j] != order[k];
      assert order[j] < order[k] ==> !Clash(chosen[order[j]], chosen[order[k]]);
      assert order[k] < order[j] ==> !Clash(chosen[order[k]], chosen[order[j]]);
    }
    forall m ensures m in r <==> m in chosen {
      if m in chosen {
        var i :| 0 <= i < |chosen| && chosen[i] == m;
        assert i in order;
        var k :| 0 <= k < |order| && order[k] == i;
        assert r[k] == m;
      }
    }
    forall i: nat ensures Covered(r, i) <==> Covered(chosen, i) { SameCover(r, chosen, i); }
  }

  function Inverse(order: seq<nat>): (r: seq<nat>)
    requires IsOrder(order, |order|)
    ensures |r| == |order| && forall i :: 0 <= i < |r| ==> r[i] < |order| && order[r[i]] == i
  {
    seq(|order|, i requires 0 <= i < |order| => Where(order, i))
  }

  function Where(s: seq<nat>, x: nat): (k: nat)
    requires x in s
    ensures k < |s| && s[k] == x
  {
    if s[0] == x then 0 else Where(s[1..], x) + 1
  }

  lemma InverseIsOrder(order: seq<nat>)
    requires IsOrder(order, |order|)
    ensures IsOrder(Inverse(order), |order|)
  {
    var r := Inverse(order);
    forall i | 0 <= i < |order| ensures i in r {
      assert order[r[order[i]]] == order[i];
      assert r[order[i]] == i;
    }
    forall j, k | 0 <= j < k < |r| ensures r[j] != r[k] { assert order[r[j]] == j && order[r[k]] == k; }
  }

  function Reordered<T>(s: seq<T>, order: seq<nat>): (r: seq<T>)
    requires forall k :: 0 <= k < |order| ==> order[k] < |s|
    ensures |r| == |order| && forall k :: 0 <= k < |r| ==> r[k] == s[order[k]]
  {
    seq(|order|, k requires 0 <= k < |order| => s[order[k]])
  }

  /** Whether pages can be bound does not depend on their order. */
  lemma OrderDoesNotMatter(words: seq<Word>, pages: seq<seq<Name>>, order: seq<nat>)
    requires IsOrder(order, |pages|)
    ensures Bindable(words, Reordered(pages, order)) <==> Bindable(words, pages)
  {
    var others := Reordered(pages, order);
    if Bindable(words, pages) {
      var chosen :| Binds(words, pages, chosen);
      PickKeeps(words, chosen, order);
      assert Binds(words, others, Pick(chosen, order));
    }
    if Bindable(words, others) {
      var chosen :| Binds(words, others, chosen);
      InverseIsOrder(order);
      PickKeeps(words, chosen, Inverse(order));
      var back := Pick(chosen, Inverse(order));
      forall k | 0 <= k < |pages| ensures IsMatch(words, pages[k], back[k]) {
        assert others[Inverse(order)[k]] == pages[k];
      }
      assert Binds(words, pages, back);
    }
  }

  /** A solution of the search, over the pages' matches in the search's order, is a binding, and back. */
  lemma SolvesIsBinds(words: seq<Word>, pages: seq<seq<Name>>, matches: seq<seq<Match>>, order: seq<nat>,
                      full: seq<Match>)
    requires |matches| == |pages| && IsOrder(order, |pages|)
    requires forall k :: 0 <= k < |pages| ==> forall m :: m in matches[k] <==> IsMatch(words, pages[k], m)
    ensures Solves(words, Reordered(matches, order), full) <==> Binds(words, Reordered(pages, order), full)
  {
    var lists, others := Reordered(matches, order), Reordered(pages, order);
    if |full| == |lists| {
      forall k | 0 <= k < |lists| ensures full[k] in lists[k] <==> IsMatch(words, others[k], full[k]) {
        assert lists[k] == matches[order[k]] && others[k] == pages[order[k]];
      }
    }
  }

  method AllMatches(words: seq<Word>, pages: seq<seq<Name>>) returns (missing: bool, matches: seq<seq<Match>>)
    ensures missing ==> exists k :: 0 <= k < |pages| && Unmatched(words, pages[k])
    ensures !missing ==> |matches| == |pages|
    ensures !missing ==> forall k :: 0 <= k < |pages| ==> |matches[k]| == MatchCount(words, pages[k])
    ensures !missing ==>
              forall k :: 0 <= k < |pages| ==> forall m :: m in matches[k] <==> IsMatch(words, pages[k], m)
  {
    matches, missing := [], false;
    var k := 0;
    while k < |pages| && !missing
      invariant k <= |pages|
      invariant missing ==> exists k :: 0 <= k < |pages| && Unmatched(words, pages[k])
      invariant !missing ==>
                  |matches| == k && forall j :: 0 <= j < k ==> |matches[j]| == MatchCount(words, pages[j])
      invariant !missing ==> forall j :: 0 <= j < k ==> forall m :: m in matches[j] <==> IsMatch(words, pages[j], m)
    {
      var found := PageMatches(words, pages[k]);
      if found == [] {
        missing := true;
        assert Unmatched(words, pages[k]);
      } else {
        matches := matches + [found];
      }
      k := k + 1;
    }
  }

  lemma OrderTwice(a: seq<nat>, b: seq<nat>, n: nat)
    requires IsOrder(a, n) && IsOrder(b, n)
    ensures multiset(a) == multiset(b)
  {
    forall x ensures multiset(a)[x] == multiset(b)[x] {
      OnceIn(a, x);
      OnceIn(b, x);
      assert x in a <==> x in b;
    }
  }

  lemma {:induction false} OnceIn(s: seq<nat>, x: nat)
    requires forall j, k :: 0 <= j < k < |s| ==> s[j] != s[k]
    ensures multiset(s)[x] == if x in s then 1 else 0
  {
    if s != [] {
      var n := |s| - 1;
      OnceIn(s[..n], x);
      assert s == s[..n] + [s[n]];
    }
  }

  /** Taken in two orders, a sequence has the same elements. */
  lemma {:induction false} ReorderedAlike(counts: seq<nat>, a: seq<nat>, b: seq<nat>)
    requires multiset(a) == multiset(b) && forall k :: 0 <= k < |a| ==> a[k] < |counts|
    requires forall k :: 0 <= k < |b| ==> b[k] < |counts|
    ensures multiset(Reordered(counts, a)) == multiset(Reordered(counts, b))
    decreases |a|
  {
    assert |multiset(a)| == |multiset(b)|;
    if a != [] {
      var n := |a| - 1;
      assert a[n] in multiset(b);
      var i :| 0 <= i < |b| && b[i] == a[n];
      var rest := b[..i] + b[i + 1..];
      Without(a, b, i);
      ReorderedAlike(counts, a[..n], rest);
      Apart(Reordered(counts, b), i);
      assert Reordered(counts, rest) == Reordered(counts, b)[..i] + Reordered(counts, b)[i + 1..];
      assert Reordered(counts, a) == Reordered(counts, a[..n]) + [counts[a[n]]];
    }
  }

  lemma Apart(s: seq<nat>, i: nat)
    requires i < |s|
    ensures multiset(s) == multiset{s[i]} + multiset(s[..i] + s[i + 1..])
  {
    assert s == s[..i] + [s[i]] + s[i + 1..];
    assert multiset(s[..i] + s[i + 1..]) == multiset(s[..i]) + multiset(s[i + 1..]);
  }

  lemma Without(a: seq<nat>, b: seq<nat>, i: nat)
    requires a != [] && i < |b| && b[i] == a[|a| - 1] && multiset(a) == multiset(b)
    ensures multiset(a[..|a| - 1]) == multiset(b[..i] + b[i + 1..])
  {
    Apart(b, i);
    assert a == a[..|a| - 1] + [a[|a| - 1]];
    assert multiset(a) == multiset{a[|a| - 1]} + multiset(a[..|a| - 1]);
    Cancels(multiset{b[i]}, multiset(a[..|a| - 1]), multiset(b[..i] + b[i + 1..]));
  }

  /** Fewest candidates first makes the tree smallest. */
  lemma ByCountIsSmallest(counts: seq<nat>, order: seq<nat>, other: seq<nat>)
    requires IsOrder(order, |counts|) && IsOrder(other, |counts|) && Rising(Reordered(counts, order))
    ensures TreeSize(Reordered(counts, order)) <= TreeSize(Reordered(counts, other))
  {
    OrderTwice(order, other, |counts|);
    ReorderedAlike(counts, order, other);
    RisingIsSmallest(Reordered(counts, order), Reordered(counts, other));
  }

  lemma {:induction false} SameTotal(a: seq<nat>, b: seq<nat>)
    requires multiset(a) == multiset(b)
    ensures Total(a) == Total(b)
    decreases |a|
  {
    assert |multiset(a)| == |multiset(b)|;
    if a != [] {
      assert a[0] in multiset(b);
      var i :| 0 <= i < |b| && b[i] == a[0];
      Apart(a, 0);
      Apart(b, i);
      assert a[..0] + a[0 + 1..] == a[1..];
      assert multiset(a) == multiset{a[0]} + multiset(a[1..]);
      Cancels(multiset{a[0]}, multiset(a[1..]), multiset(b[..i] + b[i + 1..]));
      SameTotal(a[1..], b[..i] + b[i + 1..]);
      TotalApart(b, i);
    }
  }

  lemma {:induction false} TotalApart(s: seq<nat>, i: nat)
    requires i < |s|
    ensures Total(s) == s[i] + Total(s[..i] + s[i + 1..])
  {
    if i == 0 {
      assert s[..0] + s[1..] == s[1..];
    } else {
      TotalApart(s[1..], i - 1);
      assert (s[..i] + s[i + 1..])[1..] == s[1..][..i - 1] + s[1..][i..];
    }
  }

  /** What the search may have spent, from how often the names of the pages stand in the subject: no more than the
      tree of choices has nodes, in whatever order the pages are taken, and hardly more than its budget. */
  ghost predicate SpentFairly(counts: seq<nat>, spent: nat) {
    && (forall order :: IsOrder(order, |counts|) ==> spent <= TreeSize(Reordered(counts, order)))
    && spent <= BUDGET + 1 + Total(counts)
  }

  lemma SpentIsFair(counts: seq<nat>, lists: seq<seq<Match>>, order: seq<nat>, spent: nat)
    requires |counts| == |lists| && IsOrder(order, |lists|) && ByCount(lists, order)
    requires forall k :: 0 <= k < |lists| ==> counts[k] == |lists[k]|
    requires var searched := Counts(Reordered(lists, order));
             spent <= TreeSize(searched) && spent <= BUDGET + 1 + Total(searched)
    ensures SpentFairly(counts, spent)
  {
    var taken := Reordered(counts, order);
    assert Counts(Reordered(lists, order)) == taken;
    assert Rising(taken);
    forall other | IsOrder(other, |counts|) ensures spent <= TreeSize(Reordered(counts, other)) {
      ByCountIsSmallest(counts, order, other);
    }
    var same := seq(|counts|, k => k);
    assert IsOrder(same, |counts|) by {
      forall i | 0 <= i < |counts| ensures i in same { assert same[i] == i; }
    }
    OrderTwice(order, same, |counts|);
    ReorderedAlike(counts, order, same);
    assert Reordered(counts, same) == counts;
    SameTotal(taken, counts);
  }

  /** True is sound whatever was spent; false is complete when the search stayed within its budget of 10000 states,
      as it does when in some order of the pages the tree of choices has no more nodes. */
  method ListSubjectBinds(words: seq<Word>, pages: seq<seq<Name>>) returns (binds: bool, spent: nat)
    ensures binds ==> Bindable(words, pages)
    ensures !binds && spent <= 10000 ==> !Bindable(words, pages)
    ensures SpentFairly(MatchCounts(words, pages), spent)
    ensures (exists order :: IsOrder(order, |pages|) && TreeSize(Reordered(MatchCounts(words, pages), order)) <= 10000)
            ==> (binds <==> Bindable(words, pages))
  {
    hide TreeSize, Total, Reordered, IsOrder, OnlyAnds, Compatible;
    var missing, matches := AllMatches(words, pages);
    binds, spent := false, 0;
    if missing {
      NoneBinds(words, pages);
      return;
    }
    var order := OrderByCount(matches);
    OrderIsWithin(order, |matches|);
    var search := new Search(words, Reordered(matches, order));
    NoneChosen();
    binds := search.Assign(0, {}, [], []);
    spent := search.states;
    assert Counts(search.lists)[0..] == Counts(search.lists);
    SpentIsFair(MatchCounts(words, pages), matches, order, spent);
    SearchedAll(words, pages, matches, order, binds, spent);
  }

  lemma NoneChosen()
    ensures Compatible([]) && Describes([], {}, [])
  {
  }

  lemma OrderIsWithin(order: seq<nat>, n: nat)
    requires IsOrder(order, n)
    ensures |order| == n && forall k :: 0 <= k < n ==> order[k] < n
  {
  }

  lemma NoneBinds(words: seq<Word>, pages: seq<seq<Name>>)
    requires exists k :: 0 <= k < |pages| && Unmatched(words, pages[k])
    ensures !Bindable(words, pages)
  {
    hide OnlyAnds, Compatible;
    var k :| 0 <= k < |pages| && Unmatched(words, pages[k]);
    forall chosen ensures !Binds(words, pages, chosen) {
      if |chosen| == |pages| { assert !IsMatch(words, pages[k], chosen[k]); }
    }
  }

  /** What the search found, said of the pages. */
  lemma SearchedAll(words: seq<Word>, pages: seq<seq<Name>>, matches: seq<seq<Match>>, order: seq<nat>, binds: bool,
                    spent: nat)
    requires |matches| == |pages| && IsOrder(order, |pages|)
    requires forall k :: 0 <= k < |pages| ==> forall m :: m in matches[k] <==> IsMatch(words, pages[k], m)
    requires binds ==> exists full :: [] <= full && Solves(words, Reordered(matches, order), full)
    requires !binds && spent <= BUDGET ==>
               forall full :: [] <= full ==> !Solves(words, Reordered(matches, order), full)
    ensures binds ==> Bindable(words, pages)
    ensures !binds && spent <= BUDGET ==> !Bindable(words, pages)
  {
    hide OnlyAnds, Compatible;
    forall full ensures Solves(words, Reordered(matches, order), full)
        <==> Binds(words, Reordered(pages, order), full) {
      SolvesIsBinds(words, pages, matches, order, full);
      assert [] <= full;
    }
    OrderDoesNotMatter(words, pages, order);
  }

  /** Each side of a pair sentence is a name of one of two pages, and neither side stands inside the other. */
  predicate PairBinds(left: Name, right: Name, first: seq<Name>, second: seq<Name>) {
    left in first && right in second && !Nested(left, right)
  }

  method PairSubjectBinds(left: Name, right: Name, pages: seq<seq<Name>>) returns (binds: bool)
    ensures binds <==> |pages| == 2 && left != [] && right != []
                       && (PairBinds(left, right, pages[0], pages[1]) || PairBinds(left, right, pages[1], pages[0]))
  {
    if |pages| != 2 || left == [] || right == [] { return false; }
    var inside := SequenceInside(left, right);
    var i := 0;
    binds := false;
    while i < 2 && !binds
      invariant 0 <= i <= 2
      invariant binds ==> PairBinds(left, right, pages[0], pages[1]) || PairBinds(left, right, pages[1], pages[0])
      invariant !binds ==>
                (i > 0 ==> !PairBinds(left, right, pages[0], pages[1]))
                && (i > 1 ==> !PairBinds(left, right, pages[1], pages[0]))
    {
      binds := left in pages[i] && right in pages[1 - i] && !inside;
      i := i + 1;
    }
  }
}
