/** The JavaScript built-ins the study-buddy core leans on, stated over strings of
    `char`: the `\s` character class and `String.prototype.trim`, `split` on a
    regular expression that matches runs of separator characters, ASCII
    `toLowerCase`, `includes`, `Array.prototype.join`, `Math.round` of a
    quotient, and the property lookup of a plain object. */
module Builtins {

  datatype Option<+T> = None | Some(value: T)

  /** The characters of the `\s` class of JavaScript regular expressions; they are
      also exactly the characters `trim` strips. */
  predicate IsSpace(c: char) {
    || c == ' ' || c == '\t' || c == '\n' || c == '\r' || c == '\U{B}' || c == '\U{C}'
    || c == '\U{A0}' || c == '\U{1680}' || '\U{2000}' <= c <= '\U{200A}'
    || c == '\U{2028}' || c == '\U{2029}' || c == '\U{202F}' || c == '\U{205F}'
    || c == '\U{3000}' || c == '\U{FEFF}'
  }

  // ---------------------------------------------------------------- trim

  /** Drops the longest prefix of `s` made of characters satisfying `p`. */
  function DropRun(s: string, p: char -> bool): (r: string)
    ensures |r| <= |s|
  {
    if s != [] && p(s[0]) then DropRun(s[1..], p) else s
  }

  /** `DropRun` leaves a suffix of `s`, dropping only characters satisfying
      `p`, and the suffix does not start with one. */
  lemma {:induction false} DropRunDrops(s: string, p: char -> bool)
    ensures var r := DropRun(s, p);
            && r == s[|s| - |r|..]
            && (forall i :: 0 <= i < |s| - |r| ==> p(s[i]))
            && (r == [] || !p(r[0]))
  {
    if s != [] && p(s[0]) {
      DropRunDrops(s[1..], p);
    }
  }

  /** Drops the longest suffix of `s` made of characters satisfying `p`. */
  function DropRunEnd(s: string, p: char -> bool): (r: string)
    ensures |r| <= |s|
  {
    if s != [] && p(s[|s| - 1]) then DropRunEnd(s[..|s| - 1], p) else s
  }

  /** `DropRunEnd` leaves a prefix of `s`, dropping only characters
      satisfying `p`, and the prefix does not end with one. */
  lemma {:induction false} DropRunEndDrops(s: string, p: char -> bool)
    ensures var r := DropRunEnd(s, p);
            && r == s[..|r|]
            && (forall i :: |r| <= i < |s| ==> p(s[i]))
            && (r == [] || !p(r[|r| - 1]))
  {
    if s != [] && p(s[|s| - 1]) {
      DropRunEndDrops(s[..|s| - 1], p);
    }
  }

  /** `s` with the leading and the trailing runs of characters satisfying `p` removed. */
  function TrimBy(s: string, p: char -> bool): (r: string)
    ensures |r| <= |s|
  {
    DropRunEnd(DropRun(s, p), p)
  }

  /** `String.prototype.trim`: the slice of `s` left once the leading and the
      trailing white space are gone. */
  function Trim(s: string): string {
    TrimBy(s, IsSpace)
  }

  /** How many leading characters trimming removes. */
  function TrimStart(s: string, p: char -> bool): nat {
    |s| - |DropRun(s, p)|
  }

  /** `r` is the slice of `s` at offset `i`, and only characters satisfying `p`
      lie around it. */
  predicate TrimmedAt(s: string, i: nat, r: string, p: char -> bool) {
    && i + |r| <= |s|
    && r == s[i..i + |r|]
    && (forall k :: 0 <= k < i ==> p(s[k]))
    && (forall k :: i + |r| <= k < |s| ==> p(s[k]))
  }

  /** The trimmed text is a slice of `s` with only trimmed characters around
      it, and it neither starts nor ends with one. */
  lemma TrimSlice(s: string, p: char -> bool)
    ensures TrimmedAt(s, TrimStart(s, p), TrimBy(s, p), p)
    ensures TrimBy(s, p) == [] || (!p(TrimBy(s, p)[0]) && !p(TrimBy(s, p)[|TrimBy(s, p)| - 1]))
  {
    var t := DropRun(s, p);
    var r := TrimBy(s, p);
    DropRunDrops(s, p);
    DropRunEndDrops(t, p);
    RunsAroundSlice(s, t, r, p);
    if r != [] {
      assert r[0] == t[0];
    }
  }

  /** A prefix `r` of a suffix `t` of `s`, with only characters satisfying `p`
      before `t` and after `r`, is a slice of `s` trimmed of `p`. */
  lemma RunsAroundSlice(s: string, t: string, r: string, p: char -> bool)
    requires |t| <= |s| && t == s[|s| - |t|..] && (forall k :: 0 <= k < |s| - |t| ==> p(s[k]))
    requires |r| <= |t| && r == t[..|r|] && (forall k :: |r| <= k < |t| ==> p(t[k]))
    ensures TrimmedAt(s, |s| - |t|, r, p)
  {
    var i := |s| - |t|;
    assert r == s[i..i + |r|];
    forall k | i + |r| <= k < |s| ensures p(s[k]) {
      assert s[k] == t[k - i];
    }
  }

  /** Trimming only removes characters. */
  lemma TrimChars(s: string, p: char -> bool)
    ensures forall c :: c in TrimBy(s, p) ==> c in s
  {
    var r := TrimBy(s, p);
    var i := TrimStart(s, p);
    TrimSlice(s, p);
    forall k | 0 <= k < |r| ensures r[k] in s {
      assert r[k] == s[i + k];
    }
  }

  /** Trimming leaves nothing exactly when every character is trimmed. */
  lemma TrimEmptyIffAll(s: string, p: char -> bool)
    ensures TrimBy(s, p) == [] <==> forall k :: 0 <= k < |s| ==> p(s[k])
  {
    var r := TrimBy(s, p);
    TrimSlice(s, p);
    if r != [] {
      assert s[TrimStart(s, p)] == r[0];
    }
  }

  // ---------------------------------------------------------------- split

  /** `s.split(/[C]+/)` where `C` is the set of characters `sep` accepts: the
      fragments between maximal runs of separators, with an empty first or last
      fragment when `s` starts or ends with a separator, and `[""]` for `""`. */
  function Split(s: string, sep: char -> bool): (r: seq<string>)
    ensures |r| >= 1
    ensures forall k, i :: 0 <= k < |r| && 0 <= i < |r[k]| ==> !sep(r[k][i])
    decreases |s|
  {
    if s == [] then [[]]
    else if sep(s[0]) then [[]] + Split(DropRun(s[1..], sep), sep)
    else
      var rest := Split(s[1..], sep);
      [[s[0]] + rest[0]] + rest[1..]
  }

  /** Only the first and the last fragment of a split can be empty: the
      separators between two fragments always form one maximal run. */
  lemma {:induction false} SplitInnerFragmentsNonEmpty(s: string, sep: char -> bool)
    ensures forall k :: 0 < k < |Split(s, sep)| - 1 ==> Split(s, sep)[k] != []
    decreases |s|
  {
    if s == [] {
    } else if sep(s[0]) {
      var t := DropRun(s[1..], sep);
      SplitInnerFragmentsNonEmpty(t, sep);
      var rt := Split(t, sep);
      if t != [] && |rt| > 1 {
        // t starts with a non-separator, so its first fragment is not empty
        DropRunDrops(s[1..], sep);
        SplitFirstFragmentNonEmpty(t, sep);
      }
    } else {
      SplitInnerFragmentsNonEmpty(s[1..], sep);
      var rest := Split(s[1..], sep);
      var r := Split(s, sep);
      assert r == [[s[0]] + rest[0]] + rest[1..];
      assert |r| == |rest| && forall k :: 0 < k < |r| ==> r[k] == rest[k];
    }
  }

  /** The characters of `s` that are not separators, in order. */
  function WithoutSeparators(s: string, sep: char -> bool): (r: string)
    ensures |r| <= |s|
    ensures forall i :: 0 <= i < |r| ==> !sep(r[i])
  {
    if s == [] then [] else (if sep(s[0]) then [] else [s[0]]) + WithoutSeparators(s[1..], sep)
  }

  /** Concatenation of all the parts. */
  function Concat(parts: seq<string>): string {
    if parts == [] then [] else parts[0] + Concat(parts[1..])
  }

  /** Splitting loses the separators and nothing else: the fragments, put back
      together, are the non-separator characters of `s` in order. */
  lemma {:induction false} SplitKeepsText(s: string, sep: char -> bool)
    ensures Concat(Split(s, sep)) == WithoutSeparators(s, sep)
    decreases |s|
  {
    if s == [] {
    } else if sep(s[0]) {
      var t := DropRun(s[1..], sep);
      SplitKeepsText(t, sep);
      DropRunLosesOnlySeparators(s[1..], sep);
      var rt := Split(t, sep);
      assert Concat([[]] + rt) == Concat(rt) by { assert ([[]] + rt)[1..] == rt; }
    } else {
      SplitKeepsText(s[1..], sep);
      var rest := Split(s[1..], sep);
      var r := [[s[0]] + rest[0]] + rest[1..];
      assert r[1..] == rest[1..];
      assert Concat(rest) == rest[0] + Concat(rest[1..]);
    }
  }

  lemma {:induction false} DropRunLosesOnlySeparators(s: string, sep: char -> bool)
    ensures WithoutSeparators(DropRun(s, sep), sep) == WithoutSeparators(s, sep)
    decreases |s|
  {
    if s != [] && sep(s[0]) {
      DropRunLosesOnlySeparators(s[1..], sep);
    }
  }

  /** A string that starts with a non-separator has a non-empty first fragment. */
  lemma SplitFirstFragmentNonEmpty(s: string, sep: char -> bool)
    requires s != [] && !sep(s[0])
    ensures Split(s, sep)[0] != []
  {
  }

  /** A string without separators is one fragment. */
  lemma {:induction false} SplitNoSeparator(x: string, sep: char -> bool)
    requires forall i :: 0 <= i < |x| ==> !sep(x[i])
    ensures Split(x, sep) == [x]
    decreases |x|
  {
    if x != [] {
      SplitNoSeparator(x[1..], sep);
      assert [x[0]] + x[1..] == x;
    }
  }

  /** Splitting `c y`, where `c` is a separator and `y` does not start with one,
      gives an empty fragment followed by the fragments of `y`. */
  lemma SplitAfterSeparator(c: char, y: string, sep: char -> bool)
    requires sep(c)
    requires y == [] || !sep(y[0])
    ensures Split([c] + y, sep) == [[]] + Split(y, sep)
  {
    assert ([c] + y)[0] == c && ([c] + y)[1..] == y;
    assert DropRun(y, sep) == y;
  }

  /** Splitting `x c y`, where `c` is a separator, `x` holds none and `y` does
      not start with one, gives `x` followed by the fragments of `y`. */
  lemma {:induction false} SplitAtSeparator(x: string, c: char, y: string, sep: char -> bool)
    requires forall i :: 0 <= i < |x| ==> !sep(x[i])
    requires sep(c)
    requires y == [] || !sep(y[0])
    ensures Split(x + [c] + y, sep) == [x] + Split(y, sep)
    decreases |x|
  {
    if x == [] {
      assert x + [c] + y == [c] + y;
      SplitAfterSeparator(c, y, sep);
    } else {
      var s := x + [c] + y;
      assert s[0] == x[0] && s[1..] == x[1..] + [c] + y;
      SplitAtSeparator(x[1..], c, y, sep);
      var rest := Split(s[1..], sep);
      assert rest[0] == x[1..] && rest[1..] == Split(y, sep);
      assert [x[0]] + x[1..] == x;
    }
  }

  /** A string holding a separator splits into at least two fragments. */
  lemma {:induction false} SplitWithSeparatorHasTwo(s: string, i: nat, sep: char -> bool)
    requires i < |s| && sep(s[i])
    ensures |Split(s, sep)| >= 2
    decreases |s|
  {
    if !sep(s[0]) {
      SplitWithSeparatorHasTwo(s[1..], i - 1, sep);
    }
  }

  // ---------------------------------------------------------------- join

  /** `parts.join(glue)`. */
  function Join(parts: seq<string>, glue: string): (r: string)
    ensures parts == [] ==> r == []
    ensures |parts| == 1 ==> r == parts[0]
  {
    if |parts| == 0 then []
    else if |parts| == 1 then parts[0]
    else parts[0] + glue + Join(parts[1..], glue)
  }

  /** Splitting at the glue character undoes a join of non-empty parts that do
      not contain a separator. */
  lemma {:induction false} SplitJoin(parts: seq<string>, c: char, sep: char -> bool)
    requires |parts| >= 1 && sep(c)
    requires forall k :: 0 <= k < |parts| ==> parts[k] != []
    requires forall k, i :: 0 <= k < |parts| && 0 <= i < |parts[k]| ==> !sep(parts[k][i])
    ensures Split(Join(parts, [c]), sep) == parts
  {
    if |parts| == 1 {
      SplitNoSeparator(parts[0], sep);
    } else {
      var tail := Join(parts[1..], [c]);
      SplitJoin(parts[1..], c, sep);
      assert tail != [] && !sep(tail[0]) by { JoinStartsWithFirst(parts[1..], [c]); }
      SplitAtSeparator(parts[0], c, tail, sep);
      assert Join(parts, [c]) == parts[0] + [c] + tail;
      assert [parts[0]] + parts[1..] == parts;
    }
  }

  /** Joining a part in front of at least one more part puts the glue between. */
  lemma JoinCons(part: string, rest: seq<string>, glue: string)
    requires |rest| >= 1
    ensures Join([part] + rest, glue) == part + glue + Join(rest, glue)
  {
    assert ([part] + rest)[1..] == rest;
  }

  /** A join starts with its first part. */
  lemma JoinStartsWithFirst(parts: seq<string>, glue: string)
    requires |parts| >= 1
    ensures parts[0] <= Join(parts, glue)
  {
  }

  // ---------------------------------------------------------------- case and search

  /** `toLowerCase` restricted to ASCII: `A`..`Z` become `a`..`z`, everything else is kept. */
  function LowerChar(c: char): (r: char)
    ensures 'A' <= c <= 'Z' ==> 'a' <= r <= 'z' && r as int - c as int == 32
    ensures !('A' <= c <= 'Z') ==> r == c
  {
    if 'A' <= c <= 'Z' then (c as int + 32) as char else c
  }

  function Lower(s: string): (r: string)
    ensures |r| == |s| && forall i :: 0 <= i < |s| ==> r[i] == LowerChar(s[i])
  {
    seq(|s|, i requires 0 <= i < |s| => LowerChar(s[i]))
  }

  /** `s.includes(sub)`. */
  predicate Contains(s: string, sub: string) {
    exists i :: 0 <= i <= |s| && sub <= s[i..]
  }

  // ---------------------------------------------------------------- sequences

  /** No element occurs twice. */
  predicate Distinct<T(==)>(s: seq<T>) {
    forall i, j :: 0 <= i < j < |s| ==> s[i] != s[j]
  }

  // ---------------------------------------------------------------- numbers

  function Min(a: int, b: int): int { if a <= b then a else b }

  function Max(a: int, b: int): int { if a >= b then a else b }

  /** Multiplying by a positive number keeps the order. */
  lemma MulMonotone(q: int, a: int, b: int)
    requires q > 0
    ensures a <= b ==> q * a <= q * b
    ensures a < b ==> q * a < q * b
  {
    if a <= b {
      assert q * b - q * a == q * (b - a);
    }
  }

  /** `Math.round(p / q)` for a positive `q`, computed exactly: the integer nearest
      to `p / q`, a half rounded up, as `Math.round` does. */
  function RoundQuotient(p: int, q: int): int
    requires q > 0
  {
    (2 * p + q) / (2 * q)
  }

  /** `RoundQuotient(p, q)` is within one half of `p / q`, a half going up. */
  lemma RoundQuotientIsNearest(p: int, q: int)
    requires q > 0
    ensures var r := RoundQuotient(p, q); q * (2 * r - 1) <= 2 * p < q * (2 * r + 1)
  {
    var r := RoundQuotient(p, q);
    assert 2 * q * r <= 2 * p + q < 2 * q * r + 2 * q;
  }

  // ---------------------------------------------------------------- number to string

  predicate IsDigit(c: char) { '0' <= c <= '9' }

  function DigitChar(d: nat): (c: char)
    requires d < 10
    ensures IsDigit(c) && c as int - '0' as int == d
  {
    ('0' as int + d) as char
  }

  /** `String(n)` for a natural number: its decimal digits, without leading zeros. */
  function NatText(n: nat): (r: string)
    ensures r != [] && forall i :: 0 <= i < |r| ==> IsDigit(r[i])
    ensures r[0] == '0' ==> r == "0"
  {
    if n < 10 then [DigitChar(n)] else NatText(n / 10) + [DigitChar(n % 10)]
  }

  /** `String(n)` for an integer: a minus sign before the digits of a negative one. */
  function IntText(n: int): (r: string)
    ensures r != []
  {
    if n < 0 then "-" + NatText(-n) else NatText(n)
  }

  /** The number a string of decimal digits denotes. */
  function DigitsValue(s: string): nat
    requires forall i :: 0 <= i < |s| ==> IsDigit(s[i])
  {
    if s == [] then 0
    else
      assert IsDigit(s[|s| - 1]);
      DigitsValue(s[..|s| - 1]) * 10 + (s[|s| - 1] as int - '0' as int)
  }

  /** `Number(s)` for the output of `IntText`. */
  function IntValue(s: string): int
    requires s != [] && s[0] == '-' ==> forall i :: 1 <= i < |s| ==> IsDigit(s[i])
    requires s == [] || s[0] != '-' ==> forall i :: 0 <= i < |s| ==> IsDigit(s[i])
  {
    if s != [] && s[0] == '-' then -(DigitsValue(s[1..]) as int) else DigitsValue(s)
  }

  lemma {:induction false} NatTextValue(n: nat)
    ensures DigitsValue(NatText(n)) == n
  {
    if n >= 10 {
      NatTextValue(n / 10);
      var r := NatText(n);
      assert r[..|r| - 1] == NatText(n / 10);
    }
  }

  /** Reading the decimal text of an integer back gives the integer. */
  lemma IntTextValue(n: int)
    ensures IntValue(IntText(n)) == n
  {
    if n < 0 {
      NatTextValue(-n);
      assert IntText(n)[1..] == NatText(-n);
    } else {
      NatTextValue(n);
    }
  }

  // ---------------------------------------------------------------- plain objects

  /** The names a plain object `{}` inherits from `Object.prototype`. After
      `Clean` (letters `a`..`z` only) only `constructor` can reach the tally,
      so the tally never writes `__proto__`, whose setter would ignore a
      string. */
  function PrototypeNames(): set<string> {
    {
      "constructor", "hasOwnProperty", "isPrototypeOf", "propertyIsEnumerable",
      "toLocaleString", "toString", "valueOf", "__proto__", "__defineGetter__",
      "__defineSetter__", "__lookupGetter__", "__lookupSetter__"
    }
  }
}
