/** The ordering step of the key-term ranker: `Object.entries(freq)` sorted by
    descending count with `Array.prototype.sort`, which is stable. */
module Sorting {
  import opened Builtins

  /** An entry `[word, count]` of `Object.entries(freq)`. */
  datatype Entry = Entry(word: string, count: nat)

  predicate NonIncreasing(s: seq<Entry>) {
    forall i, j :: 0 <= i < j < |s| ==> s[i].count >= s[j].count
  }

  /** How many leading entries of `sorted` have a count at least that of `e`. */
  function InsertPosition(e: Entry, sorted: seq<Entry>): (k: nat)
    ensures k <= |sorted|
    ensures forall i :: 0 <= i < k ==> sorted[i].count >= e.count
    ensures k < |sorted| ==> sorted[k].count < e.count
  {
    if sorted == [] || sorted[0].count < e.count then 0
    else 1 + InsertPosition(e, sorted[1..])
  }

  /** Places `e` behind every entry of `sorted` whose count is at least its own. */
  function InsertByCount(e: Entry, sorted: seq<Entry>): (r: seq<Entry>)
    ensures |r| == |sorted| + 1
  {
    var k := InsertPosition(e, sorted);
    sorted[..k] + [e] + sorted[k..]
  }

  lemma InsertByCountShape(e: Entry, sorted: seq<Entry>)
    ensures var k := InsertPosition(e, sorted);
            var r := InsertByCount(e, sorted);
            && r[k] == e
            && (forall i :: 0 <= i < k ==> r[i] == sorted[i])
            && (forall i :: k < i < |r| ==> r[i] == sorted[i - 1])
  {
  }

  /** Inserting adds `e` and loses nothing. */
  lemma InsertByCountMembers(e: Entry, sorted: seq<Entry>)
    ensures forall x :: x in InsertByCount(e, sorted) <==> x == e || x in sorted
  {
    var k := InsertPosition(e, sorted);
    assert sorted == sorted[..k] + sorted[k..];
  }

  /** Inserting into a list sorted by descending count keeps it sorted. */
  lemma InsertByCountSorted(e: Entry, sorted: seq<Entry>)
    requires NonIncreasing(sorted)
    ensures NonIncreasing(InsertByCount(e, sorted))
  {
    InsertByCountShape(e, sorted);
  }

  lemma InsertByCountDistinct(e: Entry, sorted: seq<Entry>)
    requires Distinct(sorted) && e !in sorted
    ensures Distinct(InsertByCount(e, sorted))
  {
    InsertByCountShape(e, sorted);
    var k := InsertPosition(e, sorted);
    var r := InsertByCount(e, sorted);
    forall i, j | 0 <= i < j < |r| ensures r[i] != r[j] {
      if i == k {
        assert r[j] == sorted[j - 1];
      } else if j == k {
        assert r[i] == sorted[i];
      }
    }
  }

  /** `entries.sort((a, b) => b[1] - a[1])`. Array sorting is stable, so with
      this comparator the result is unique; it is the insertion sort below. */
  function SortByCount(s: seq<Entry>): (r: seq<Entry>)
    ensures |r| == |s| && NonIncreasing(r)
  {
    if s == [] then []
    else
      var init, last := s[..|s| - 1], s[|s| - 1];
      var sorted := SortByCount(init);
      InsertByCountSorted(last, sorted);
      InsertByCount(last, sorted)
  }

  /** Sorting keeps exactly the entries it is given, and keeps them distinct. */
  lemma {:induction false} SortByCountMembers(s: seq<Entry>)
    ensures forall x :: x in SortByCount(s) <==> x in s
    ensures Distinct(s) ==> Distinct(SortByCount(s))
  {
    if s != [] {
      var init, last := s[..|s| - 1], s[|s| - 1];
      assert s == init + [last];
      SortByCountMembers(init);
      InsertByCountMembers(last, SortByCount(init));
      if Distinct(s) {
        InsertByCountDistinct(last, SortByCount(init));
      }
    }
  }

  /** The entries of `s` whose count is `c`, in order. */
  function WithCount(s: seq<Entry>, c: nat): seq<Entry> {
    if s == [] then [] else (if s[0].count == c then [s[0]] else []) + WithCount(s[1..], c)
  }

  lemma {:induction false} WithCountAppend(a: seq<Entry>, b: seq<Entry>, c: nat)
    ensures WithCount(a + b, c) == WithCount(a, c) + WithCount(b, c)
  {
    if a == [] {
      assert a + b == b;
    } else {
      var ab := a + b;
      assert ab[0] == a[0] && ab[1..] == a[1..] + b;
      WithCountAppend(a[1..], b, c);
      var h := if a[0].count == c then [a[0]] else [];
      calc {
        WithCount(ab, c);
        h + WithCount(a[1..] + b, c);
        h + (WithCount(a[1..], c) + WithCount(b, c));
        (h + WithCount(a[1..], c)) + WithCount(b, c);
      }
    }
  }

  lemma {:induction false} WithCountNone(s: seq<Entry>, c: nat)
    requires forall i :: 0 <= i < |s| ==> s[i].count != c
    ensures WithCount(s, c) == []
  {
    if s != [] {
      WithCountNone(s[1..], c);
    }
  }

  lemma {:induction false} WithCountAround(front: seq<Entry>, e: Entry, back: seq<Entry>, c: nat)
    ensures WithCount(front + [e] + back, c) == WithCount(front, c) + WithCount([e], c) + WithCount(back, c)
  {
    WithCountAppend(front + [e], back, c);
    WithCountAppend(front, [e], c);
  }

  /** Behind the insertion point every count is below that of `e`. */
  lemma InsertPositionBack(e: Entry, sorted: seq<Entry>)
    requires NonIncreasing(sorted)
    ensures var back := sorted[InsertPosition(e, sorted)..];
            forall i :: 0 <= i < |back| ==> back[i].count < e.count
  {
  }

  lemma {:induction false} WithCountInsert(front: seq<Entry>, e: Entry, back: seq<Entry>, c: nat)
    requires forall i :: 0 <= i < |back| ==> back[i].count < e.count
    ensures WithCount(front + [e] + back, c) == WithCount(front + back, c) + WithCount([e], c)
  {
    WithCountAround(front, e, back, c);
    WithCountAppend(front, back, c);
    if c == e.count {
      WithCountNone(back, c);
    }
  }

  lemma InsertByCountWithCount(e: Entry, sorted: seq<Entry>, c: nat)
    requires NonIncreasing(sorted)
    ensures WithCount(InsertByCount(e, sorted), c) == WithCount(sorted, c) + WithCount([e], c)
  {
    var k := InsertPosition(e, sorted);
    var front, back := sorted[..k], sorted[k..];
    assert InsertByCount(e, sorted) == front + [e] + back;
    InsertPositionBack(e, sorted);
    WithCountInsert(front, e, back, c);
    assert front + back == sorted;
  }

  /** The sort is stable: for every count, the entries with that count keep
      their relative order. */
  lemma {:induction false} SortByCountIsStable(s: seq<Entry>, c: nat)
    ensures WithCount(SortByCount(s), c) == WithCount(s, c)
  {
    if s != [] {
      var init, last := s[..|s| - 1], s[|s| - 1];
      SortByCountIsStable(init, c);
      InsertByCountWithCount(last, SortByCount(init), c);
      WithCountAppend(init, [last], c);
      assert init + [last] == s;
    }
  }

  /** `x` occurs in `s` at an earlier position than `y`. */
  predicate Before(x: Entry, y: Entry, s: seq<Entry>) {
    exists p, q :: 0 <= p < q < |s| && s[p] == x && s[q] == y
  }

  lemma {:induction false} WithCountMembers(s: seq<Entry>, c: nat)
    ensures forall x :: x in WithCount(s, c) <==> x in s && x.count == c
  {
    if s != [] {
      WithCountMembers(s[1..], c);
      assert s == [s[0]] + s[1..];
    }
  }

  lemma BeforeCons(h: Entry, t: seq<Entry>, x: Entry, y: Entry)
    requires Before(x, y, t)
    ensures Before(x, y, [h] + t)
  {
    var p, q :| 0 <= p < q < |t| && t[p] == x && t[q] == y;
    assert ([h] + t)[p + 1] == x && ([h] + t)[q + 1] == y;
  }

  lemma BeforeHead(h: Entry, t: seq<Entry>, y: Entry)
    requires y in t
    ensures Before(h, y, [h] + t)
  {
    var q :| 0 <= q < |t| && t[q] == y;
    assert ([h] + t)[0] == h && ([h] + t)[q + 1] == y;
  }

  /** `WithCount` of a non-empty list, one step unfolded. */
  lemma WithCountCons(s: seq<Entry>, c: nat)
    requires s != []
    ensures s[0].count == c ==> WithCount(s, c) == [s[0]] + WithCount(s[1..], c)
    ensures s[0].count != c ==> WithCount(s, c) == WithCount(s[1..], c)
  {
  }

  /** An order among the entries of count `c` after the head is kept once the
      head is put back. */
  lemma BeforeInWithCountTail(s: seq<Entry>, c: nat, x: Entry, y: Entry)
    requires s != [] && Before(x, y, WithCount(s[1..], c))
    ensures Before(x, y, WithCount(s, c))
  {
    WithCountCons(s, c);
    if s[0].count == c {
      BeforeCons(s[0], WithCount(s[1..], c), x, y);
    }
  }

  /** A head of count `c` comes before every later entry of count `c`. */
  lemma HeadBeforeInWithCount(s: seq<Entry>, j: nat, c: nat)
    requires 0 < j < |s| && s[0].count == c && s[j].count == c
    ensures Before(s[0], s[j], WithCount(s, c))
  {
    var t := s[1..];
    WithCountCons(s, c);
    WithCountMembers(t, c);
    assert t[j - 1] == s[j];
    BeforeHead(s[0], WithCount(t, c), s[j]);
  }

  /** Two entries with count `c` keep their order in `WithCount(s, c)`. */
  lemma {:induction false} WithCountKeepsOrder(s: seq<Entry>, i: nat, j: nat, c: nat)
    requires i < j < |s| && s[i].count == c && s[j].count == c
    ensures Before(s[i], s[j], WithCount(s, c))
  {
    if i == 0 {
      HeadBeforeInWithCount(s, j, c);
    } else {
      var t := s[1..];
      assert t[i - 1] == s[i] && t[j - 1] == s[j];
      WithCountKeepsOrder(t, i - 1, j - 1, c);
      BeforeInWithCountTail(s, c, s[i], s[j]);
    }
  }

  /** Two positions of `WithCount(s, c)` hold entries in that order in `s`. */
  lemma {:induction false} WithCountOrderAt(s: seq<Entry>, c: nat, p: nat, q: nat)
    requires p < q < |WithCount(s, c)|
    ensures Before(WithCount(s, c)[p], WithCount(s, c)[q], s)
  {
    assert s != [];
    var t := s[1..];
    var wt := WithCount(t, c);
    assert s == [s[0]] + t;
    var w := WithCount(s, c);
    WithCountCons(s, c);
    if s[0].count == c {
      assert w == [s[0]] + wt;
      assert w[q] == wt[q - 1];
      if p == 0 {
        assert w[0] == s[0];
        WithCountMembers(t, c);
        assert wt[q - 1] in wt;
        BeforeHead(s[0], t, wt[q - 1]);
      } else {
        assert w[p] == wt[p - 1];
        WithCountOrderAt(t, c, p - 1, q - 1);
        BeforeCons(s[0], t, wt[p - 1], wt[q - 1]);
      }
    } else {
      assert w == wt;
      WithCountOrderAt(t, c, p, q);
      BeforeCons(s[0], t, wt[p], wt[q]);
    }
  }

  /** An order seen in `WithCount(s, c)` is an order of `s`. */
  lemma WithCountShowsOrder(s: seq<Entry>, x: Entry, y: Entry, c: nat)
    requires Before(x, y, WithCount(s, c))
    ensures Before(x, y, s)
  {
    var w := WithCount(s, c);
    var p, q :| 0 <= p < q < |w| && w[p] == x && w[q] == y;
    WithCountOrderAt(s, c, p, q);
  }

  /** Entries that tie in the sorted list are in the order they had before sorting. */
  lemma SortByCountKeepsTies(s: seq<Entry>, i: nat, j: nat)
    requires i < j < |SortByCount(s)| && SortByCount(s)[i].count == SortByCount(s)[j].count
    ensures Before(SortByCount(s)[i], SortByCount(s)[j], s)
  {
    var sorted := SortByCount(s);
    var c := sorted[i].count;
    WithCountKeepsOrder(sorted, i, j, c);
    SortByCountIsStable(s, c);
    WithCountShowsOrder(s, sorted[i], sorted[j], c);
  }
}
