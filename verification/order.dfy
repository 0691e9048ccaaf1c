/** The order in which the multiplexer hands out its merged history:
    timestamp ascending, then source id ascending, compared as JavaScript
    compares strings. */
module HistoryOrder {
  import opened Wire

  /** JavaScript's `<` on two strings: lexicographic, a proper prefix first. */
  predicate LexLess(a: string, b: string)
    ensures LexLess(a, b) ==> a != b
    ensures |a| < |b| && a == b[..|a|] ==> LexLess(a, b)
  {
    if |a| == 0 then |b| > 0
    else if |b| == 0 then false
    else if a[0] != b[0] then a[0] < b[0]
    else LexLess(a[1..], b[1..])
  }

  lemma {:induction false} LexLessIrreflexive(a: string)
    ensures !LexLess(a, a)
  {
    if |a| > 0 {
      LexLessIrreflexive(a[1..]);
    }
  }

  lemma {:induction false} LexLessAsymmetric(a: string, b: string)
    ensures !(LexLess(a, b) && LexLess(b, a))
  {
    if |a| > 0 && |b| > 0 && a[0] == b[0] {
      LexLessAsymmetric(a[1..], b[1..]);
    }
  }

  /** Two different strings are always ordered one way or the other. */
  lemma {:induction false} LexLessTotal(a: string, b: string)
    ensures a == b || LexLess(a, b) || LexLess(b, a)
  {
    if |a| > 0 && |b| > 0 && a[0] == b[0] {
      LexLessTotal(a[1..], b[1..]);
      if a[1..] == b[1..] {
        assert a == [a[0]] + a[1..] && b == [b[0]] + b[1..];
      }
    }
  }

  lemma {:induction false} LexLessTransitive(a: string, b: string, c: string)
    requires LexLess(a, b) && LexLess(b, c)
    ensures LexLess(a, c)
  {
    if |a| > 0 && |b| > 0 && |c| > 0 && a[0] == b[0] && b[0] == c[0] {
      LexLessTransitive(a[1..], b[1..], c[1..]);
    }
  }

  /** The comparator handed to `sort`: the timestamp difference, or when that
      is zero, -1, 0 or 1 by source id. */
  function Compare(a: Update, b: Update): (r: int)
    ensures r == 0 <==> a.timestamp == b.timestamp && a.sourceId == b.sourceId
  {
    if a.timestamp - b.timestamp != 0 then a.timestamp - b.timestamp
    else if a.sourceId == b.sourceId then 0
    else if LexLess(a.sourceId, b.sourceId) then -1
    else 1
  }

  /** The comparator is consistent: `a` sorts before `b` exactly when `b`
      sorts after `a`. */
  lemma CompareAntisymmetric(a: Update, b: Update)
    ensures Compare(a, b) < 0 <==> Compare(b, a) > 0
  {
    LexLessTotal(a.sourceId, b.sourceId);
    LexLessAsymmetric(a.sourceId, b.sourceId);
  }

  /** `a` may come before `b` in the history. */
  predicate InOrder(a: Update, b: Update)
  {
    || a.timestamp < b.timestamp
    || (a.timestamp == b.timestamp && (a.sourceId == b.sourceId || LexLess(a.sourceId, b.sourceId)))
  }

  /** The comparator says "not after" exactly when the two are in order. */
  lemma CompareMeansInOrder(a: Update, b: Update)
    ensures Compare(a, b) <= 0 <==> InOrder(a, b)
  {
  }

  lemma InOrderTotal(a: Update, b: Update)
    ensures InOrder(a, b) || InOrder(b, a)
  {
    LexLessTotal(a.sourceId, b.sourceId);
  }

  lemma InOrderTransitive(a: Update, b: Update, c: Update)
    requires InOrder(a, b) && InOrder(b, c)
    ensures InOrder(a, c)
  {
    if a.timestamp == b.timestamp == c.timestamp
       && LexLess(a.sourceId, b.sourceId) && LexLess(b.sourceId, c.sourceId) {
      LexLessTransitive(a.sourceId, b.sourceId, c.sourceId);
    }
  }

  /** Every item is in order with the one after it. */
  predicate Sorted(s: seq<Update>)
  {
    forall i :: 0 < i < |s| ==> InOrder(s[i - 1], s[i])
  }

  /** Consecutive order extends to every pair of positions. */
  lemma {:induction false} SortedPairwise(s: seq<Update>, i: int, j: int)
    requires Sorted(s)
    requires 0 <= i < j < |s|
    ensures InOrder(s[i], s[j])
  {
    if i < j - 1 {
      SortedPairwise(s, i, j - 1);
      InOrderTransitive(s[i], s[j - 1], s[j]);
    }
  }

  /** An item in order with the head of a sorted sequence can go in front. */
  lemma SortedCons(a: Update, r: seq<Update>)
    requires Sorted(r) && (r != [] ==> InOrder(a, r[0]))
    ensures Sorted([a] + r)
  {
    var ar := [a] + r;
    forall i | 0 < i < |ar|
      ensures InOrder(ar[i - 1], ar[i])
    {
      if i > 1 {
        assert ar[i - 1] == r[i - 2] && ar[i] == r[i - 1];
      }
    }
  }

  /** Puts `x` into a sorted sequence after every item that does not compare
      above it, as a stable sort does. */
  function Insert(x: Update, s: seq<Update>): (r: seq<Update>)
    requires Sorted(s)
    ensures Sorted(r)
    ensures multiset(r) == multiset(s) + multiset{x}
    ensures r[0] == x || (s != [] && r[0] == s[0])
  {
    if s == [] then [x]
    else if Compare(x, s[0]) < 0 then
      CompareMeansInOrder(x, s[0]);
      SortedCons(x, s);
      [x] + s
    else
      var rest := Insert(x, s[1..]);
      CompareMeansInOrder(x, s[0]);
      InOrderTotal(x, s[0]);
      assert s == [s[0]] + s[1..];
      SortedCons(s[0], rest);
      [s[0]] + rest
  }

  /** The merged history in comparator order: a stable insertion sort that
      takes the items first to last. */
  function SortHistory(s: seq<Update>): (r: seq<Update>)
    ensures Sorted(r)
    ensures multiset(r) == multiset(s)
  {
    if s == [] then []
    else
      assert s == s[..|s| - 1] + [s[|s| - 1]];
      Insert(s[|s| - 1], SortHistory(s[..|s| - 1]))
  }

  /** Sorting keeps the length and the items. */
  lemma SortHistoryKeeps(s: seq<Update>, x: Update)
    ensures |SortHistory(s)| == |s|
    ensures x in SortHistory(s) <==> x in s
  {
    var r := SortHistory(s);
    assert |r| == |multiset(r)| == |multiset(s)| == |s|;
    assert x in r <==> x in multiset(r);
    assert x in s <==> x in multiset(s);
  }

  /** What the sorted history promises to a peer that reads it in order:
      timestamps never go down, and on equal timestamps the source ids
      never go down. */
  lemma SortHistoryOrder(s: seq<Update>, i: int, j: int)
    requires 0 <= i < j < |SortHistory(s)|
    ensures SortHistory(s)[i].timestamp <= SortHistory(s)[j].timestamp
    ensures SortHistory(s)[i].timestamp == SortHistory(s)[j].timestamp ==>
              !LexLess(SortHistory(s)[j].sourceId, SortHistory(s)[i].sourceId)
  {
    var r := SortHistory(s);
    SortedPairwise(r, i, j);
    if LexLess(r[i].sourceId, r[j].sourceId) {
      LexLessAsymmetric(r[i].sourceId, r[j].sourceId);
    }
    if r[i].sourceId == r[j].sourceId {
      LexLessIrreflexive(r[i].sourceId);
    }
  }
}
