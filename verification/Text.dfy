/** Characters of stored text: their UTF-8 width (section 3 of RFC 3629), the characters Python's
    `\s` matches, and the characters at which `str.splitlines` ends a line. */
module Text {

  function Width(c: char): (w: nat)
    ensures 1 <= w <= 4
  {
    if c as int < 0x80 then 1
    else if c as int < 0x800 then 2
    else if c as int < 0x10000 then 3
    else 4
  }

  predicate IsSpace(c: char) {
    var n := c as int;
    9 <= n <= 13 || 28 <= n <= 32 || n == 0x85 || n == 0xA0 || n == 0x1680 || 0x2000 <= n <= 0x200A
    || n == 0x2028 || n == 0x2029 || n == 0x202F || n == 0x205F || n == 0x3000
  }

  predicate Blank(t: string) { forall i :: 0 <= i < |t| ==> IsSpace(t[i]) }

  predicate IsBreak(c: char) {
    var n := c as int;
    10 <= n <= 13 || 28 <= n <= 30 || n == 0x85 || n == 0x2028 || n == 0x2029
  }

  function DropSpaces(t: string): string {
    if t != [] && IsSpace(t[0]) then DropSpaces(t[1..]) else t
  }

  function TrimEnd(t: string): string {
    if t != [] && IsSpace(t[|t| - 1]) then TrimEnd(t[..|t| - 1]) else t
  }

  function Strip(t: string): string { TrimEnd(DropSpaces(t)) }

  /** The length of the leading run of characters in `chars`. */
  function Run(t: string, chars: set<char>): (n: nat)
    ensures n <= |t|
  {
    if t != [] && t[0] in chars then 1 + Run(t[1..], chars) else 0
  }

  function Min(a: int, b: int): int { if a < b then a else b }

  function Max(a: int, b: int): int { if a < b then b else a }

  /** The bytes of the first `i` characters. */
  function Prefix(t: string, i: nat): nat
    requires i <= |t|
  {
    if i == 0 then 0 else Prefix(t, i - 1) + Width(t[i - 1])
  }

  /** The bytes of the slice from `i` to `j`. */
  function Bytes(t: string, i: nat, j: nat): int
    requires i <= j <= |t|
  {
    Prefix(t, j) - Prefix(t, i)
  }

  /** The bytes of a whole text. */
  function Size(t: string): nat { Prefix(t, |t|) }

  /** A slice holds at least one byte a character and at most four. */
  lemma {:induction false} BytesBounds(t: string, i: nat, j: nat)
    requires i <= j <= |t|
    ensures j - i <= Bytes(t, i, j) <= 4 * (j - i)
    decreases j - i
  {
    if i < j { BytesBounds(t, i, j - 1); }
  }

  lemma {:induction false} PrefixOfSlice(t: string, from: nat, to: nat, i: nat)
    requires from <= to <= |t| && i <= to - from
    ensures Prefix(t[from..to], i) == Prefix(t, from + i) - Prefix(t, from)
  {
    if i > 0 { PrefixOfSlice(t, from, to, i - 1); }
  }

  /** Positions measure the same bytes as the slice they delimit. */
  lemma SizeOfSlice(t: string, i: nat, j: nat)
    requires i <= j <= |t|
    ensures Size(t[i..j]) == Bytes(t, i, j)
  {
    PrefixOfSlice(t, i, j, j - i);
  }

  /** The first position from `i` that starts a word, or `limit` when there is none. */
  function SkipSpaces(t: string, i: nat, limit: nat): (r: nat)
    requires i <= limit <= |t|
    ensures i <= r <= limit
    ensures forall k :: i <= k < r ==> IsSpace(t[k])
    ensures r < limit ==> !IsSpace(t[r])
    decreases limit - i
  {
    if i == limit || !IsSpace(t[i]) then i else SkipSpaces(t, i + 1, limit)
  }

  /** The first position from `i` that is white space, or `limit` when there is none. */
  function WordEnd(t: string, i: nat, limit: nat): (r: nat)
    requires i <= limit <= |t|
    ensures i <= r <= limit
    ensures forall k :: i <= k < r ==> !IsSpace(t[k])
    ensures r < limit ==> IsSpace(t[r])
    ensures i < limit && !IsSpace(t[i]) ==> i < r
    decreases limit - i
  {
    if i == limit || IsSpace(t[i]) then i else WordEnd(t, i + 1, limit)
  }

  /** The maximal runs without white space in the slice from `i` to `limit`. */
  function Words(t: string, i: nat, limit: nat): nat
    requires i <= limit <= |t|
    decreases limit - i
  {
    var start := SkipSpaces(t, i, limit);
    if start == limit then 0 else 1 + Words(t, WordEnd(t, start, limit), limit)
  }

  lemma {:induction false} SkipIsUnique(t: string, i: nat, limit: nat, r: nat)
    requires i <= r <= limit <= |t|
    requires forall k :: i <= k < r ==> IsSpace(t[k])
    requires r < limit ==> !IsSpace(t[r])
    ensures SkipSpaces(t, i, limit) == r
    decreases limit - i
  {
    if i < r { SkipIsUnique(t, i + 1, limit, r); }
  }

  lemma {:induction false} WordEndIsUnique(t: string, i: nat, limit: nat, r: nat)
    requires i <= r <= limit <= |t|
    requires forall k :: i <= k < r ==> !IsSpace(t[k])
    requires r < limit ==> IsSpace(t[r])
    ensures WordEnd(t, i, limit) == r
    decreases limit - i
  {
    if i < r { WordEndIsUnique(t, i + 1, limit, r); }
  }

  /** The exclusive end of the line that starts at `from`, its line break included. */
  function LineEnd(t: string, from: nat): (r: nat)
    requires from < |t|
    ensures from < r <= |t|
    decreases |t| - from
  {
    if t[from] == '\r' && from + 1 < |t| && t[from + 1] == '\n' then from + 2
    else if IsBreak(t[from]) || from + 1 == |t| then from + 1
    else LineEnd(t, from + 1)
  }
}
