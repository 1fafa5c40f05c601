/** Figures: what a numeric token may mean in evidence, what it claims in an answer, and which claims nothing backs. */
module Figures {
  import opened Options

  /** A matched number with its magnitude suffix and percent sign, and its text. */
  datatype Token = Token(num: string, suffix: Option<char>, percent: bool, display: string)

  /** A value as it is compared: bare, or as a percentage. */
  datatype Reading = Plain(text: string) | Percent(text: string)

  /** How text is cut into numeric tokens, and how a value is written with six digits. A suffix `bn` is given
      as `b`, which scales the same. */
  datatype Reader = Reader(tokens: string -> seq<Token>, canon: real -> string)

  /** No text, no tokens; a token is what its display says; and text followed by a line feed and more text
      keeps its tokens, of which the last may gain a suffix or a percent sign across the line feed. */
  ghost predicate Lawful(r: Reader) {
    && r.tokens("") == []
    && (forall a, b, t, u :: t in r.tokens(a) && u in r.tokens(b) && t.display == u.display ==> t == u)
    && forall a, b :: KeepsTokens(r, a, b)
  }

  ghost predicate KeepsTokens(r: Reader, a: string, b: string) {
    forall t :: t in r.tokens(a) ==> exists u :: u in r.tokens(a + "\n" + b) && Widens(u, t)
  }

  predicate Widens(u: Token, t: Token) {
    u.num == t.num && (t.suffix.Some? ==> u.suffix == t.suffix) && (t.percent ==> u.percent)
  }

  // ---- the values of a numeral ------------------------------------------------------------------------

  function DigitOf(c: char): real { if '0' <= c <= '9' then (c as int - '0' as int) as real else 0.0 }

  function Whole(s: string): real { if s == [] then 0.0 else Whole(s[..|s| - 1]) * 10.0 + DigitOf(s[|s| - 1]) }

  function PowerOfTen(n: nat): (p: real)
    ensures p > 0.0
  {
    if n == 0 then 1.0 else 10.0 * PowerOfTen(n - 1)
  }

  function Decimal(head: string, tail: string): real { Whole(head) + Whole(tail) / PowerOfTen(|tail|) }

  function SplitAt(s: string, c: char): (parts: seq<string>)
    ensures |parts| >= 1
  {
    if s == [] then [""]
    else
      var before, last := SplitAt(s[..|s| - 1], c), s[|s| - 1];
      if last == c then before + [""] else before[..|before| - 1] + [before[|before| - 1] + [last]]
  }

  function Concat(parts: seq<string>): string {
    if parts == [] then "" else Concat(parts[..|parts| - 1]) + parts[|parts| - 1]
  }

  function Drop(s: string, c: char): string { Concat(SplitAt(s, c)) }

  function LastOf(s: string, c: char): int {
    if s == [] then -1 else if s[|s| - 1] == c then |s| - 1 else LastOf(s[..|s| - 1], c)
  }

  /** The numeral's plausible values: grouping and decimal marks may be points or commas. */
  function Values(num: string): set<real> {
    if '.' in num && ',' in num then
      var decimal := if LastOf(num, '.') > LastOf(num, ',') then '.' else ',';
      var parts := SplitAt(Drop(num, if decimal == '.' then ',' else '.'), decimal);
      if |parts| == 2 then {Decimal(parts[0], parts[1])} else {}
    else if '.' in num || ',' in num then
      var parts := SplitAt(num, if '.' in num then '.' else ',');
      if |parts| > 2 then {Whole(Concat(parts))}
      else if |parts| == 2
      then (if |parts[1]| == 3 then {Whole(parts[0] + parts[1])} else {}) + {Decimal(parts[0], parts[1])}
      else {}
    else {Whole(num)}
  }

  function Magnitude(suffix: Option<char>): Option<real> {
    match suffix
    case Some(c) =>
      if c in {'k', 'K'} then Some(1000.0) else if c in {'m', 'M'} then Some(1000000.0)
      else if c in {'b', 'B'} then Some(1000000000.0) else None
    case None => None
  }

  // ---- evidence and answers -----------------------------------------------------------------------------

  function Times(v: real, scale: real): real { v * scale }

  function Bare(r: Reader, num: string): set<Reading> { set v | v in Values(num) :: Plain(r.canon(v)) }

  function Scaled(r: Reader, num: string, scale: real): set<Reading> {
    set v | v in Values(num) :: Plain(r.canon(Times(v, scale)))
  }

  function Percents(r: Reader, num: string): set<Reading> { set v | v in Values(num) :: Percent(r.canon(v)) }

  /** Evidence may mean the bare value, the scaled one, and the percentage. */
  function Interpretations(r: Reader, t: Token): set<Reading> {
    var scale := Magnitude(t.suffix);
    Bare(r, t.num) + (if scale.Some? then Scaled(r, t.num, scale.value) else {})
    + (if t.percent then Percents(r, t.num) else {})
  }

  /** An answer claims one dimension only. */
  function Claimed(r: Reader, t: Token): set<Reading> {
    var scale := Magnitude(t.suffix);
    if scale.Some? then Scaled(r, t.num, scale.value)
    else if t.percent then Percents(r, t.num)
    else Bare(r, t.num)
  }

  function PoolOf(r: Reader, tokens: seq<Token>): set<Reading> {
    if tokens == [] then {} else PoolOf(r, tokens[..|tokens| - 1]) + Interpretations(r, tokens[|tokens| - 1])
  }

  function NumberPool(r: Reader, text: string): set<Reading> { PoolOf(r, r.tokens(text)) }

  function CountDigits(s: string): nat {
    if s == [] then 0 else CountDigits(s[..|s| - 1]) + if '0' <= s[|s| - 1] <= '9' then 1 else 0
  }

  /** A bare single digit is a list marker. */
  predicate IsMarker(t: Token) { CountDigits(t.num) == 1 && t.suffix.None? && !t.percent }

  predicate Backed(r: Reader, t: Token, pool: set<Reading>) { Claimed(r, t) * pool != {} }

  /** The displays of the tokens no reading backs, each once; a display is judged where it first stands. */
  function MissingIn(r: Reader, tokens: seq<Token>, pool: set<Reading>): seq<string> {
    if tokens == [] then []
    else
      var n := |tokens| - 1;
      var before, t := MissingIn(r, tokens[..n], pool), tokens[n];
      if IsMarker(t) || t.display in Displays(tokens[..n]) || Backed(r, t, pool) then before else before + [t.display]
  }

  function Displays(tokens: seq<Token>): set<string> {
    set k | 0 <= k < |tokens| && !IsMarker(tokens[k]) :: tokens[k].display
  }

  function Unverified(r: Reader, answer: string, evidence: string): seq<string> {
    MissingIn(r, r.tokens(answer), NumberPool(r, evidence))
  }

  method CollectPool(r: Reader, text: string) returns (pool: set<Reading>)
    ensures pool == NumberPool(r, text)
  {
    var tokens := r.tokens(text);
    pool := {};
    var i := 0;
    while i < |tokens|
      invariant i <= |tokens| && pool == PoolOf(r, tokens[..i])
    {
      assert tokens[..i + 1][..i] == tokens[..i];
      pool := pool + Interpretations(r, tokens[i]);
      i := i + 1;
    }
    assert tokens[..i] == tokens;
  }

  method UnverifiedFigures(r: Reader, answer: string, evidence: string) returns (missing: seq<string>)
    ensures missing == Unverified(r, answer, evidence)
  {
    var pool := CollectPool(r, evidence);
    var tokens := r.tokens(answer);
    var seen: set<string> := {};
    missing := [];
    var i := 0;
    while i < |tokens|
      invariant i <= |tokens| && seen == Displays(tokens[..i]) && missing == MissingIn(r, tokens[..i], pool)
    {
      var t := tokens[i];
      assert tokens[..i + 1][..i] == tokens[..i];
      DisplaysMore(tokens, i);
      i := i + 1;
      if IsMarker(t) || t.display in seen { continue; }
      seen := seen + {t.display};
      if Claimed(r, t) * pool == {} {
        missing := missing + [t.display];
      }
    }
    assert tokens[..i] == tokens;
  }

  lemma DisplaysMore(tokens: seq<Token>, i: nat)
    requires i < |tokens|
    ensures Displays(tokens[..i + 1]) == Displays(tokens[..i]) + if IsMarker(tokens[i]) then {} else {tokens[i].display}
  {
    var more := tokens[..i + 1];
    forall d ensures d in Displays(more)
        <==> d in Displays(tokens[..i]) || (!IsMarker(tokens[i]) && d == tokens[i].display) {
      if d in Displays(tokens[..i]) {
        var k :| 0 <= k < i && !IsMarker(tokens[..i][k]) && tokens[..i][k].display == d;
        assert more[k] == tokens[..i][k];
      }
      assert more[i] == tokens[i];
    }
  }

  // ---- what backing means ---------------------------------------------------------------------------------

  /** What a token claims is one of the things it may mean. */
  lemma ClaimIsInterpretation(r: Reader, t: Token)
    ensures Claimed(r, t) <= Interpretations(r, t)
  {
  }

  lemma {:induction false} PoolHas(r: Reader, tokens: seq<Token>, reading: Reading)
    ensures reading in PoolOf(r, tokens) <==> exists t :: t in tokens && reading in Interpretations(r, t)
  {
    if tokens != [] {
      var n := |tokens| - 1;
      PoolHas(r, tokens[..n], reading);
      assert tokens == tokens[..n] + [tokens[n]];
    }
  }

  /** A wider token means at least as much. */
  lemma WiderMeansMore(r: Reader, u: Token, t: Token)
    requires Widens(u, t)
    ensures Interpretations(r, t) <= Interpretations(r, u)
  {
  }

  /** Evidence only adds to the pool. */
  lemma PoolGrows(r: Reader, a: string, b: string)
    requires Lawful(r)
    ensures NumberPool(r, a) <= NumberPool(r, a + "\n" + b)
  {
    forall reading | reading in NumberPool(r, a) ensures reading in NumberPool(r, a + "\n" + b) {
      PoolHas(r, r.tokens(a), reading);
      PoolHas(r, r.tokens(a + "\n" + b), reading);
      assert KeepsTokens(r, a, b);
      var t :| t in r.tokens(a) && reading in Interpretations(r, t);
      var u :| u in r.tokens(a + "\n" + b) && Widens(u, t);
      WiderMeansMore(r, u, t);
    }
  }

  /** Every figure of a text is backed, the list markers apart. */
  ghost predicate AllBacked(r: Reader, tokens: seq<Token>, pool: set<Reading>) {
    forall t :: t in tokens && !IsMarker(t) ==> Backed(r, t, pool)
  }

  lemma {:induction false} NothingMissing(r: Reader, tokens: seq<Token>, pool: set<Reading>)
    requires forall t, u :: t in tokens && u in tokens && t.display == u.display ==> t == u
    ensures MissingIn(r, tokens, pool) == [] <==> AllBacked(r, tokens, pool)
  {
    if tokens != [] {
      var n := |tokens| - 1;
      NothingMissing(r, tokens[..n], pool);
      assert tokens == tokens[..n] + [tokens[n]];
      if !IsMarker(tokens[n]) && tokens[n].display in Displays(tokens[..n]) {
        var k :| 0 <= k < n && !IsMarker(tokens[..n][k]) && tokens[..n][k].display == tokens[n].display;
        assert tokens[k] in tokens[..n] && tokens[k] in tokens;
      }
    }
  }

  /** No figure is reported exactly when every figure of the answer is backed by the evidence. */
  lemma UnverifiedIsUnbacked(r: Reader, answer: string, evidence: string)
    requires Lawful(r)
    ensures Unverified(r, answer, evidence) == [] <==> AllBacked(r, r.tokens(answer), NumberPool(r, evidence))
  {
    NothingMissing(r, r.tokens(answer), NumberPool(r, evidence));
  }

  /** Later evidence leaves no more figures unverified than earlier. */
  lemma EvidenceHelps(r: Reader, answer: string, a: string, b: string)
    requires Lawful(r)
    ensures |Unverified(r, answer, a + "\n" + b)| <= |Unverified(r, answer, a)|
    ensures forall d :: d in Unverified(r, answer, a + "\n" + b) ==> d in Unverified(r, answer, a)
  {
    PoolGrows(r, a, b);
    forall d ensures d in Unverified(r, answer, a + "\n" + b) ==> d in Unverified(r, answer, a) {
      FewerMissing(r, r.tokens(answer), NumberPool(r, a), NumberPool(r, a + "\n" + b), d);
    }
    FewerMissing(r, r.tokens(answer), NumberPool(r, a), NumberPool(r, a + "\n" + b), "");
  }

  lemma {:induction false} FewerMissing(r: Reader, tokens: seq<Token>, small: set<Reading>, large: set<Reading>,
                                        d: string)
    requires small <= large
    ensures d in MissingIn(r, tokens, large) ==> d in MissingIn(r, tokens, small)
    ensures |MissingIn(r, tokens, large)| <= |MissingIn(r, tokens, small)|
  {
    if tokens != [] {
      FewerMissing(r, tokens[..|tokens| - 1], small, large, d);
    }
  }

  function ReadingOf(r: Reader, t: Token, v: real): Reading {
    var scale := Magnitude(t.suffix);
    if scale.Some? then Plain(r.canon(Times(v, scale.value))) else if t.percent then Percent(r.canon(v))
    else Plain(r.canon(v))
  }

  lemma ClaimHas(r: Reader, t: Token, v: real)
    requires v in Values(t.num)
    ensures ReadingOf(r, t, v) in Claimed(r, t)
  {
  }

  lemma NoValueNoClaim(r: Reader, t: Token)
    requires Values(t.num) == {}
    ensures Claimed(r, t) == {}
  {
  }

  /** A figure copied from the evidence is backed exactly when it has a value at all. */
  lemma CopiedFigure(r: Reader, t: Token, evidence: string)
    requires t in r.tokens(evidence)
    ensures Backed(r, t, NumberPool(r, evidence)) <==> Values(t.num) != {}
  {
    if Values(t.num) == {} {
      NoValueNoClaim(r, t);
    } else {
      var v :| v in Values(t.num);
      ClaimHas(r, t, v);
      ClaimIsInterpretation(r, t);
      PoolHas(r, r.tokens(evidence), ReadingOf(r, t, v));
      assert ReadingOf(r, t, v) in Claimed(r, t) * NumberPool(r, evidence);
    }
  }

  // ---- numerals without a value ---------------------------------------------------------------------------

  function Count(s: string, c: char): nat {
    if s == [] then 0 else Count(s[..|s| - 1], c) + if s[|s| - 1] == c then 1 else 0
  }

  lemma {:induction false} CountAppends(a: string, b: string, c: char)
    ensures Count(a + b, c) == Count(a, c) + Count(b, c)
  {
    if b == [] {
      assert a + b == a;
    } else {
      CountAppends(a, b[..|b| - 1], c);
      assert (a + b)[..|a + b| - 1] == a + b[..|b| - 1];
    }
  }

  lemma {:induction false} SplitCounts(s: string, c: char)
    ensures |SplitAt(s, c)| == Count(s, c) + 1
  {
    if s != [] { SplitCounts(s[..|s| - 1], c); }
  }

  lemma {:induction false} DropCounts(s: string, gone: char, c: char)
    requires gone != c
    ensures Count(Drop(s, gone), c) == Count(s, c)
  {
    if s == [] {
      assert SplitAt(s, gone) == [""] && [""][..0] == [];
      assert Concat([""]) == "";
    } else {
      var front, last := s[..|s| - 1], s[|s| - 1];
      DropCounts(front, gone, c);
      var parts := SplitAt(front, gone);
      var k := |parts| - 1;
      if last == gone {
        assert (parts + [""])[..|parts|] == parts;
        assert Concat(parts + [""]) == Concat(parts) + "" == Concat(parts);
      } else {
        assert (parts[..k] + [parts[k] + [last]])[..k] == parts[..k];
        assert Concat(SplitAt(s, gone)) == Concat(parts[..k]) + (parts[k] + [last]);
        assert Concat(parts) == Concat(parts[..k]) + parts[k];
        CountAppends(Concat(parts), [last], c);
        assert Concat(parts[..k]) + (parts[k] + [last]) == Concat(parts) + [last];
        assert [last][..0] == "";
      }
    }
  }

  lemma {:induction false} HasCount(s: string, c: char)
    ensures c in s <==> Count(s, c) > 0
  {
    if s != [] {
      HasCount(s[..|s| - 1], c);
      assert s == s[..|s| - 1] + [s[|s| - 1]];
    }
  }

  /** A numeral has no value exactly when it has both marks and the one that stands last stands more than once. */
  lemma ValueMissing(num: string)
    ensures Values(num) == {} <==>
              '.' in num && ',' in num && Count(num, if LastOf(num, '.') > LastOf(num, ',') then '.' else ',') != 1
  {
    HasCount(num, '.');
    HasCount(num, ',');
    if '.' in num && ',' in num {
      var decimal := if LastOf(num, '.') > LastOf(num, ',') then '.' else ',';
      var thousand := if decimal == '.' then ',' else '.';
      DropCounts(num, thousand, decimal);
      SplitCounts(Drop(num, thousand), decimal);
      var parts := SplitAt(Drop(num, thousand), decimal);
      if |parts| == 2 { assert Decimal(parts[0], parts[1]) in Values(num); }
    } else if '.' in num || ',' in num {
      var mark := if '.' in num then '.' else ',';
      SplitCounts(num, mark);
      var parts := SplitAt(num, mark);
      if |parts| > 2 {
        assert Whole(Concat(parts)) in Values(num);
      } else {
        assert Decimal(parts[0], parts[1]) in Values(num);
      }
    } else {
      assert Whole(num) in Values(num);
    }
  }

  lemma {:induction false} LastBefore(s: string, c: char, k: nat)
    requires k <= |s| && forall i :: k <= i < |s| ==> s[i] != c
    ensures LastOf(s, c) == LastOf(s[..k], c) < k
  {
    var n := |s| - 1;
    if k <= n {
      LastBefore(s[..n], c, k);
      assert s[..n][..k] == s[..k];
    } else if s != [] {
      assert s[..k] == s;
      if s[n] != c { LastBefore(s[..n], c, n); assert s[..n][..n] == s[..n]; }
    }
  }

  /** A numeral grouped in two ways has none: no token of it is backed, by whatever evidence. */
  lemma TwoGroupings(r: Reader, t: Token, pool: set<Reading>)
    requires t.num == "1,234.567.890"
    ensures Values(t.num) == {} && !Backed(r, t, pool)
  {
    hide Values, Claimed, SplitAt, Decimal;
    var num := t.num;
    assert num[1] == ',' && num[5] == '.' && num[9] == '.';
    LastBefore(num, '.', 10);
    assert num[..10][9] == '.';
    LastBefore(num, ',', 2);
    assert num[..6][5] == '.' && num[6..][3] == '.';
    CountAppends(num[..6], num[6..], '.');
    assert num[..6] + num[6..] == num;
    HasCount(num[..6], '.');
    HasCount(num[6..], '.');
    ValueMissing(num);
    NoValueNoClaim(r, t);
  }
}
