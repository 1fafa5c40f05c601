/** How many states a backtracking search can visit: the size of the full tree of choices, and the order of the lists
    that makes it smallest. */
module SearchCost {

  /** The nodes of the tree with a choice from each list, one after the other. */
  function TreeSize(counts: seq<nat>): (n: nat)
    ensures n > 0
  {
    if counts == [] then 1 else 1 + counts[0] * TreeSize(counts[1..])
  }

  function Total(counts: seq<nat>): nat { if counts == [] then 0 else counts[0] + Total(counts[1..]) }

  ghost predicate Rising(counts: seq<nat>) { forall i, j :: 0 <= i < j < |counts| ==> counts[i] <= counts[j] }

  lemma Scaled(x: nat, a: nat, b: nat)
    requires a <= b
    ensures x * a <= x * b
  {
  }

  lemma OneMore(x: nat, counts: seq<nat>)
    ensures TreeSize([x] + counts) == 1 + x * TreeSize(counts)
  {
    assert ([x] + counts)[1..] == counts;
  }

  /** A list no longer than those before it is better searched first. */
  lemma {:induction false} FirstIsBetter(before: seq<nat>, m: nat, after: seq<nat>)
    requires forall x :: x in before ==> m <= x
    ensures TreeSize([m] + before + after) <= TreeSize(before + [m] + after)
  {
    hide TreeSize;
    if before == [] {
      assert [m] + before + after == before + [m] + after;
    } else {
      var x, rest := before[0], before[1..];
      assert x in before && forall y :: y in rest ==> y in before;
      FirstIsBetter(rest, m, after);
      Moved(x, rest, m, after);
      assert before == [x] + rest;
      Scaled(x, TreeSize([m] + rest + after), TreeSize(rest + [m] + after));
      Swapped(x, m, TreeSize(rest + after));
    }
  }

  lemma Moved(x: nat, rest: seq<nat>, m: nat, after: seq<nat>)
    ensures TreeSize([x] + rest + [m] + after) == 1 + x * TreeSize(rest + [m] + after)
    ensures TreeSize([m] + ([x] + rest) + after) == 1 + m * (1 + x * TreeSize(rest + after))
    ensures TreeSize([m] + rest + after) == 1 + m * TreeSize(rest + after)
  {
    hide TreeSize;
    OneMore(x, rest + [m] + after);
    OneMore(m, [x] + (rest + after));
    OneMore(x, rest + after);
    OneMore(m, rest + after);
    assert [x] + rest + [m] + after == [x] + (rest + [m] + after);
    assert [m] + ([x] + rest) + after == [m] + ([x] + (rest + after));
    assert [m] + rest + after == [m] + (rest + after);
  }

  lemma Swapped(x: nat, m: nat, t: nat)
    requires m <= x
    ensures 1 + m * (1 + x * t) <= 1 + x * (1 + m * t)
  {
    assert m * (1 + x * t) == m + m * x * t && x * (1 + m * t) == x + x * m * t;
    assert m * x * t == x * m * t;
  }

  lemma SameRest(rising: seq<nat>, before: seq<nat>, m: nat, after: seq<nat>)
    requires rising != [] && rising[0] == m && multiset(rising) == multiset(before + [m] + after)
    ensures multiset(rising[1..]) == multiset(before + after)
  {
    var rest := rising[1..];
    assert rising == [m] + rest;
    assert multiset([m] + rest) == multiset{m} + multiset(rest);
    assert multiset(before + [m] + after) == multiset(before) + multiset{m} + multiset(after);
    assert multiset(before + after) == multiset(before) + multiset(after);
    Cancels(multiset{m}, multiset(rest), multiset(before + after));
  }

  lemma Cancels(a: multiset<nat>, b: multiset<nat>, c: multiset<nat>)
    requires a + b == a + c
    ensures b == c
  {
    forall x ensures b[x] == c[x] { assert (a + b)[x] == (a + c)[x]; }
  }

  /** The first of the lists in rising order is one of the others, and the rest are the rest. */
  lemma TakeFirst(rising: seq<nat>, counts: seq<nat>) returns (before: seq<nat>, after: seq<nat>)
    requires rising != [] && Rising(rising) && multiset(rising) == multiset(counts)
    ensures counts == before + [rising[0]] + after && (forall x :: x in before ==> rising[0] <= x)
    ensures multiset(rising[1..]) == multiset(before + after)
  {
    var m := rising[0];
    assert m in multiset(rising);
    var i :| 0 <= i < |counts| && counts[i] == m;
    before, after := counts[..i], counts[i + 1..];
    assert counts == before + [m] + after;
    forall x | x in before ensures m <= x {
      assert x in multiset(counts);
      var k :| 0 <= k < |rising| && rising[k] == x;
    }
    SameRest(rising, before, m, after);
  }

  /** Fewest first is never worse: no order of the same lists makes a smaller tree. */
  lemma {:induction false} RisingIsSmallest(rising: seq<nat>, counts: seq<nat>)
    requires Rising(rising) && multiset(rising) == multiset(counts)
    ensures TreeSize(rising) <= TreeSize(counts)
    decreases |rising|
  {
    hide TreeSize;
    if rising == [] {
      assert |multiset(counts)| == 0;
    } else {
      var before, after := TakeFirst(rising, counts);
      FirstIsBetter(before, rising[0], after);
      RisingIsSmallest(rising[1..], before + after);
      OneMore(rising[0], rising[1..]);
      OneMore(rising[0], before + after);
      assert [rising[0]] + rising[1..] == rising && [rising[0]] + (before + after) == [rising[0]] + before + after;
      Scaled(rising[0], TreeSize(rising[1..]), TreeSize(before + after));
    }
  }

}
