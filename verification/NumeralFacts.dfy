/** What numerals mean: numbers written in digits, with one mark or both, have the value they are written for. */
module NumeralFacts {
  import opened Options
  import opened Figures

  // ---- digits ---------------------------------------------------------------------------------------------

  /** A number as it is written. */
  function Written(n: nat): (s: string)
    ensures s != ""
  {
    if n < 10 then ['0' + n as char] else Written(n / 10) + ['0' + (n % 10) as char]
  }

  lemma {:induction false} WrittenReads(n: nat)
    ensures Whole(Written(n)) == n as real && Unmarked(Written(n))
  {
    if n >= 10 {
      var front, last := Written(n / 10), ['0' + (n % 10) as char];
      WrittenReads(n / 10);
      assert (front + last)[..|front|] == front;
    } else {
      assert Written(n)[..0] == "" && Whole("") == 0.0;
    }
  }

  predicate Unmarked(s: string) { '.' !in s && ',' !in s }

  lemma {:induction false} WholeAppends(a: string, b: string)
    ensures Whole(a + b) == Whole(a) * PowerOfTen(|b|) + Whole(b)
  {
    if b == "" {
      assert a + b == a;
    } else {
      var n := |b| - 1;
      WholeAppends(a, b[..n]);
      assert (a + b)[..|a + b| - 1] == a + b[..n];
      Shifted(Whole(a), PowerOfTen(n), Whole(b[..n]), DigitOf(b[n]));
    }
  }

  lemma Shifted(a: real, p: real, b: real, d: real)
    ensures (a * p + b) * 10.0 + d == a * (10.0 * p) + (b * 10.0 + d)
  {
  }

  /** What stands after a decimal mark counts for as many places as it has digits. */
  lemma DecimalShifts(head: string, tail: string)
    ensures Decimal(head, tail) * PowerOfTen(|tail|) == Whole(head + tail)
  {
    hide Whole, PowerOfTen;
    WholeAppends(head, tail);
    Divided(Whole(head), Whole(tail), PowerOfTen(|tail|));
  }

  lemma Divided(a: real, b: real, p: real)
    requires p > 0.0
    ensures (a + b / p) * p == a * p + b
  {
    assert b / p * p == b;
  }

  // ---- marks ------------------------------------------------------------------------------------------------

  /** Groups of digits with a mark between them. */
  function Grouped(groups: seq<string>, mark: char): string {
    if groups == [] then ""
    else if |groups| == 1 then groups[0]
    else Grouped(groups[..|groups| - 1], mark) + [mark] + groups[|groups| - 1]
  }

  lemma {:induction false} SplitNone(s: string, c: char)
    requires c !in s
    ensures SplitAt(s, c) == [s]
  {
    if s != "" {
      SplitNone(s[..|s| - 1], c);
      assert s == s[..|s| - 1] + [s[|s| - 1]];
    }
  }

  lemma {:induction false} SplitLast(a: string, b: string, c: char)
    requires c !in b
    ensures SplitAt(a + [c] + b, c) == SplitAt(a, c) + [b]
  {
    var s := a + [c] + b;
    if b == "" {
      assert s[..|s| - 1] == a;
    } else {
      var n := |b| - 1;
      SplitLast(a, b[..n], c);
      assert s[..|s| - 1] == a + [c] + b[..n];
      assert b == b[..n] + [b[n]] && b[n] != c;
      var parts := SplitAt(a, c);
      assert (parts + [b[..n]])[..|parts|] == parts;
    }
  }

  lemma {:induction false} SplitGroups(groups: seq<string>, mark: char)
    requires groups != [] && forall g :: g in groups ==> mark !in g
    ensures SplitAt(Grouped(groups, mark), mark) == groups
  {
    var n := |groups| - 1;
    if n == 0 {
      SplitNone(groups[0], mark);
      assert groups == [groups[0]];
    } else {
      SplitGroups(groups[..n], mark);
      SplitLast(Grouped(groups[..n], mark), groups[n], mark);
      assert groups == groups[..n] + [groups[n]];
    }
  }

  lemma {:induction false} GroupedChars(groups: seq<string>, mark: char, c: char)
    ensures c in Grouped(groups, mark) <==> (exists g :: g in groups && c in g) || (|groups| > 1 && c == mark)
  {
    if |groups| > 1 {
      var n := |groups| - 1;
      GroupedChars(groups[..n], mark, c);
      assert groups == groups[..n] + [groups[n]];
    } else if |groups| == 1 {
      assert groups == [groups[0]];
    }
  }

  predicate AllUnmarked(groups: seq<string>) { forall g :: g in groups ==> Unmarked(g) }

  function OtherMark(mark: char): char { if mark == '.' then ',' else '.' }

  /** A numeral without a mark is a whole number. */
  lemma PlainNumeral(num: string)
    requires Unmarked(num)
    ensures Values(num) == {Whole(num)}
  {
  }

  /** One mark, of either kind, is a decimal mark, and before three digits it may group thousands. */
  lemma OneMark(head: string, tail: string, mark: char)
    requires Unmarked(head) && Unmarked(tail) && mark in {'.', ','}
    ensures Values(head + [mark] + tail) == {Decimal(head, tail)} + if |tail| == 3 then {Whole(head + tail)} else {}
  {
    var num := head + [mark] + tail;
    SplitLast(head, tail, mark);
    SplitNone(head, mark);
    assert num[|head|] == mark && OtherMark(mark) !in num;
    assert SplitAt(num, mark) == [head, tail];
  }

  /** One mark more than once groups thousands. */
  lemma ManyGroups(groups: seq<string>, mark: char)
    requires |groups| > 2 && AllUnmarked(groups) && mark in {'.', ','}
    ensures Values(Grouped(groups, mark)) == {Whole(Concat(groups))}
  {
    SplitGroups(groups, mark);
    GroupedChars(groups, mark, mark);
    GroupedChars(groups, mark, OtherMark(mark));
  }

  /** With both, the one that stands last is the decimal mark. */
  lemma BothMarks(groups: seq<string>, mark: char, tail: string)
    requires |groups| > 1 && AllUnmarked(groups) && Unmarked(tail) && mark in {'.', ','}
    ensures Values(Grouped(groups, mark) + [OtherMark(mark)] + tail) == {Decimal(Concat(groups), tail)}
  {
    hide Decimal, SplitAt, Grouped, Concat, LastOf;
    var head, decimal := Grouped(groups, mark), OtherMark(mark);
    var num := head + [decimal] + tail;
    GroupedChars(groups, mark, mark);
    SplitGroups(groups, mark);
    assert num[|head|] == decimal && mark in head;
    assert num == head + ([decimal] + tail);
    DropMark(head, [decimal] + tail, mark);
    ConcatUnmarked(groups, decimal);
    TwoParts(Concat(groups), tail, decimal);
    LastMark(num, |head|, decimal, mark);
    assert Drop(num, mark) == Concat(groups) + ([decimal] + tail);
  }

  lemma TwoParts(head: string, tail: string, mark: char)
    requires mark !in head && mark !in tail
    ensures SplitAt(head + ([mark] + tail), mark) == [head, tail]
  {
    SplitLast(head, tail, mark);
    SplitNone(head, mark);
    assert head + ([mark] + tail) == head + [mark] + tail;
  }

  lemma {:induction false} ConcatUnmarked(groups: seq<string>, c: char)
    requires forall g :: g in groups ==> c !in g
    ensures c !in Concat(groups)
  {
    if groups != [] { ConcatUnmarked(groups[..|groups| - 1], c); }
  }

  lemma LastMark(num: string, k: nat, decimal: char, mark: char)
    requires k < |num| && num[k] == decimal != mark && forall i :: k < i < |num| ==> num[i] != decimal && num[i] != mark
    ensures LastOf(num, decimal) == k > LastOf(num, mark)
  {
    LastBefore(num, decimal, k + 1);
    LastBefore(num, mark, k + 1);
    assert num[..k + 1][k] == decimal;
    LastBefore(num, mark, k);
    assert LastOf(num[..k + 1], decimal) == k;
  }

  /** Dropping a mark takes it out of what stands before, where there is none after. */
  lemma {:induction false} DropMark(a: string, b: string, c: char)
    requires c !in b
    ensures Drop(a + b, c) == Concat(SplitAt(a, c)) + b
  {
    hide SplitAt, Concat;
    if b == "" {
      assert a + b == a;
    } else {
      var n := |b| - 1;
      assert b == b[..n] + [b[n]] && b[n] != c;
      DropMark(a, b[..n], c);
      assert (a + b)[..|a + b| - 1] == a + b[..n];
      DropOne(a + b[..n], b[n], c);
      assert a + b == a + b[..n] + [b[n]];
    }
  }

  lemma DropOne(s: string, x: char, c: char)
    requires x != c
    ensures Drop(s + [x], c) == Drop(s, c) + [x]
  {
    assert (s + [x])[..|s|] == s;
    var parts := SplitAt(s, c);
    var k := |parts| - 1;
    assert SplitAt(s + [x], c) == parts[..k] + [parts[k] + [x]];
    assert (parts[..k] + [parts[k] + [x]])[..k] == parts[..k];
    assert Concat(parts) == Concat(parts[..k]) + parts[k];
  }

  // ---- what figures claim -----------------------------------------------------------------------------------

  lemma OneValue(r: Reader, num: string, v: real, scale: real)
    requires Values(num) == {v}
    ensures Bare(r, num) == {Plain(r.canon(v))} && Percents(r, num) == {Percent(r.canon(v))}
    ensures Scaled(r, num, scale) == {Plain(r.canon(Times(v, scale)))}
  {
    hide Values, Times;
    assert v in Values(num);
  }

  /** A whole number in an answer claims its value: a thousand, a million or a billion times with a suffix that says
      so, as a percentage with a percent sign alone, and as it is with any other suffix or none. */
  lemma WrittenClaims(r: Reader, n: nat, suffix: Option<char>, percent: bool, display: string)
    ensures var t, v := Token(Written(n), suffix, percent, display), n as real;
            Claimed(r, t) ==
            if suffix in {Some('k'), Some('K')} then {Plain(r.canon(v * 1000.0))}
            else if suffix in {Some('m'), Some('M')} then {Plain(r.canon(v * 1000000.0))}
            else if suffix in {Some('b'), Some('B')} then {Plain(r.canon(v * 1000000000.0))}
            else if percent then {Percent(r.canon(v))} else {Plain(r.canon(v))}
  {
    hide Values, Whole;
    WrittenReads(n);
    PlainNumeral(Written(n));
    var scale := Magnitude(suffix);
    OneValue(r, Written(n), n as real, if scale.Some? then scale.value else 1.0);
  }
}
