/**
 * The final ordering of `score_places`: `scored.sort(key=final_score,
 * reverse=True)`, Python's stable sort. Each scored place is carried as an
 * `Entry` that remembers its position in the input list, so that "equal
 * scores keep their input order" can be stated and checked.
 */
module Ranking {
  import opened Json

  /** A scored place: its input position, the stamped record and its final score. */
  datatype Entry = Entry(pos: nat, rec: Record, score: real)

  /** `x` may stand before `y` in a stable descending sort. */
  predicate Precedes(x: Entry, y: Entry) {
    x.score > y.score || (x.score == y.score && x.pos <= y.pos)
  }

  /** Non-increasing by score, and equal scores in input order. */
  predicate SortedByScore(s: seq<Entry>) {
    forall p, q :: 0 <= p < q < |s| ==> Precedes(s[p], s[q])
  }

  predicate IncreasingPos(s: seq<Entry>) {
    forall p, q :: 0 <= p < q < |s| ==> s[p].pos < s[q].pos
  }

  predicate DistinctPos(s: seq<Entry>) {
    forall p, q :: 0 <= p < q < |s| ==> s[p].pos != s[q].pos
  }

  /** The records of a ranking, in ranking order. */
  function Records(s: seq<Entry>): (r: seq<Record>)
    ensures |r| == |s|
    ensures forall i :: 0 <= i < |s| ==> r[i] == s[i].rec
  {
    seq(|s|, i requires 0 <= i < |s| => s[i].rec)
  }

  method Swap(a: array<Entry>, i: int, j: int)
    requires 0 <= i < a.Length && 0 <= j < a.Length
    modifies a
    ensures a[i] == old(a[j]) && a[j] == old(a[i])
    ensures forall m :: 0 <= m < a.Length && m != i && m != j ==> a[m] == old(a[m])
    ensures multiset(a[..]) == old(multiset(a[..]))
  {
    a[i], a[j] := a[j], a[i];
  }

  /**
   * Stable insertion sort, descending by score: each new element is swapped
   * past the elements of strictly lower score only, so it stops behind every
   * earlier element of equal score.
   */
  method SortByScore(a: array<Entry>)
    requires IncreasingPos(a[..])
    modifies a
    ensures SortedByScore(a[..])
    ensures multiset(a[..]) == old(multiset(a[..]))
  {
    var i := 0;
    while i < a.Length
      invariant 0 <= i <= a.Length
      invariant SortedByScore(a[..i])
      invariant multiset(a[..]) == old(multiset(a[..]))
      invariant forall q :: i <= q < a.Length ==> a[q] == old(a[q])
      invariant forall p, q :: 0 <= p < i <= q < a.Length ==> a[p].pos < a[q].pos
    {
      assert PosSplit(a[..], i);
      InsertLast(a, i);
      i := i + 1;
    }
    assert a[..a.Length] == a[..];
  }

  /** One step of the insertion sort: moves `a[i]` into the sorted prefix `a[..i]`. */
  method InsertLast(a: array<Entry>, i: int)
    requires 0 <= i < a.Length
    requires SortedByScore(a[..i])
    requires PosSplit(a[..], i)
    requires forall p :: 0 <= p < i ==> a[p].pos < a[i].pos
    modifies a
    ensures SortedByScore(a[..i + 1])
    ensures multiset(a[..]) == old(multiset(a[..]))
    ensures forall q :: i < q < a.Length ==> a[q] == old(a[q])
    ensures PosSplit(a[..], i)
  {
    var j := i;
    HoleStart(a[..], i);
    while j > 0 && a[j - 1].score < a[j].score
      invariant 0 <= j <= i
      invariant forall q :: i < q < a.Length ==> a[q] == old(a[q])
      invariant multiset(a[..]) == old(multiset(a[..]))
      invariant PosSplit(a[..], i)
      invariant Hole(a[..], i, j)
    {
      ghost var s := a[..];
      Swap(a, j - 1, j);
      HoleStep(s, a[..], i, j);
      j := j - 1;
    }
    HoleDone(a[..], i, j);
  }

  /** Every position at or before `i` is smaller than every position after it. */
  ghost predicate PosSplit(s: seq<Entry>, i: int) {
    forall p, q :: 0 <= p <= i < q < |s| ==> s[p].pos < s[q].pos
  }

  /**
   * The state of `InsertLast` while the inserted element sits at `j`: the
   * elements around it are in order, it beats everything behind it, and it
   * came after everything in front of it.
   */
  ghost predicate Hole(s: seq<Entry>, i: int, j: int) {
    && 0 <= j <= i < |s|
    && (forall p, q :: 0 <= p < q < j ==> Precedes(s[p], s[q]))
    && (forall p, q :: j < p < q <= i ==> Precedes(s[p], s[q]))
    && (forall p, q :: 0 <= p < j < q <= i ==> Precedes(s[p], s[q]))
    && (forall q :: j < q <= i ==> s[q].score < s[j].score)
    && (forall p :: 0 <= p < j ==> s[p].pos < s[j].pos)
  }

  lemma HoleStart(s: seq<Entry>, i: int)
    requires 0 <= i < |s|
    requires SortedByScore(s[..i])
    requires forall p :: 0 <= p < i ==> s[p].pos < s[i].pos
    ensures Hole(s, i, i)
  {
    assert forall p :: 0 <= p < i ==> s[..i][p] == s[p];
  }

  /** `t` is `s` with the entries at `j - 1` and `j` exchanged. */
  ghost predicate Swapped(s: seq<Entry>, t: seq<Entry>, j: int) {
    && 0 < j < |s| == |t|
    && t[j - 1] == s[j] && t[j] == s[j - 1]
    && forall k :: 0 <= k < |s| && k != j - 1 && k != j ==> t[k] == s[k]
  }

  lemma HoleStep(s: seq<Entry>, t: seq<Entry>, i: int, j: int)
    requires Hole(s, i, j) && PosSplit(s, i)
    requires 0 < j && s[j - 1].score < s[j].score
    requires Swapped(s, t, j)
    ensures Hole(t, i, j - 1)
    ensures PosSplit(t, i)
  {
  }

  lemma HoleDone(s: seq<Entry>, i: int, j: int)
    requires Hole(s, i, j)
    requires j == 0 || s[j - 1].score >= s[j].score
    ensures SortedByScore(s[..i + 1])
  {
    forall p, q | 0 <= p < q <= i ensures Precedes(s[p], s[q]) {
      if p < j && q == j {
        assert Precedes(s[p], s[j - 1]) || p == j - 1;
      }
    }
  }

  /**
   * Two sortings of the same entries agree when positions are distinct: the
   * stable order is unique, so a ranking is a function of its inputs.
   */
  lemma {:induction false} SortedUnique(a: seq<Entry>, b: seq<Entry>)
    requires multiset(a) == multiset(b)
    requires DistinctPos(a)
    requires SortedByScore(a) && SortedByScore(b)
    ensures a == b
    decreases |a|
  {
    assert |a| == |multiset(a)| == |multiset(b)| == |b|;
    if |a| > 0 {
      SameHead(a, b);
      MultisetTail(a, b);
      TailSorted(a);
      TailSorted(b);
      SortedUnique(a[1..], b[1..]);
      assert a == [a[0]] + a[1..];
      assert b == [b[0]] + b[1..];
    }
  }

  lemma TailSorted(s: seq<Entry>)
    requires 0 < |s| && SortedByScore(s)
    ensures SortedByScore(s[1..])
    ensures DistinctPos(s) ==> DistinctPos(s[1..])
  {
    assert forall p :: 0 <= p < |s| - 1 ==> s[1..][p] == s[p + 1];
  }

  /** Two sortings of the same entries start with the same entry. */
  lemma SameHead(a: seq<Entry>, b: seq<Entry>)
    requires multiset(a) == multiset(b) && 0 < |a|
    requires DistinctPos(a)
    requires SortedByScore(a) && SortedByScore(b)
    ensures 0 < |b| && a[0] == b[0]
  {
    assert a[0] in multiset(b);
    var j :| 0 <= j < |b| && b[j] == a[0];
    assert b[0] in multiset(a);
    var i :| 0 <= i < |a| && a[i] == b[0];
    if i != 0 {
      assert false;
    }
  }

  lemma MultisetTail(a: seq<Entry>, b: seq<Entry>)
    requires multiset(a) == multiset(b) && 0 < |a| && 0 < |b| && a[0] == b[0]
    ensures multiset(a[1..]) == multiset(b[1..])
  {
    assert a == [a[0]] + a[1..];
    assert b == [b[0]] + b[1..];
    var x := multiset{a[0]};
    assert multiset(a) == x + multiset(a[1..]);
    assert multiset(b) == x + multiset(b[1..]);
    assert multiset(a[1..]) == (x + multiset(a[1..])) - x;
    assert multiset(b[1..]) == (x + multiset(b[1..])) - x;
  }

  /** An entry occurs at most once in a sequence with distinct positions. */
  lemma {:induction false} DistinctOnce(s: seq<Entry>, x: Entry)
    requires DistinctPos(s)
    ensures multiset(s)[x] <= 1
    decreases |s|
  {
    if s != [] {
      var t := s[..|s| - 1];
      assert s == t + [s[|s| - 1]];
      assert DistinctPos(t) by {
        assert forall p :: 0 <= p < |t| ==> t[p] == s[p];
      }
      DistinctOnce(t, x);
      if x == s[|s| - 1] {
        assert x !in t by {
          assert forall p :: 0 <= p < |t| ==> t[p].pos != s[|s| - 1].pos;
        }
      }
    }
  }

  /** A rearrangement of a sequence with distinct positions has distinct positions. */
  lemma PermutationKeepsDistinct(s: seq<Entry>, r: seq<Entry>)
    requires multiset(r) == multiset(s)
    requires IncreasingPos(s)
    ensures DistinctPos(r)
  {
    forall p, q | 0 <= p < q < |r| ensures r[p].pos != r[q].pos {
      if r[p].pos == r[q].pos {
        assert r[p] in multiset(s) && r[q] in multiset(s);
        var kp :| 0 <= kp < |s| && s[kp] == r[p];
        var kq :| 0 <= kq < |s| && s[kq] == r[q];
        assert kp == kq;
        assert r[p] == r[q];
        TwiceCounted(r, p, q);
        DistinctOnce(s, r[p]);
        assert false;
      }
    }
  }

  lemma TwiceCounted(r: seq<Entry>, p: int, q: int)
    requires 0 <= p < q < |r| && r[p] == r[q]
    ensures multiset(r)[r[p]] >= 2
  {
    assert r == r[..p] + [r[p]] + r[p + 1..q] + [r[q]] + r[q + 1..];
  }

  /** Every contiguous slice of a ranking is itself sorted. */
  lemma SliceSorted(s: seq<Entry>, lo: int, hi: int)
    requires SortedByScore(s)
    requires 0 <= lo <= hi <= |s|
    ensures SortedByScore(s[lo..hi])
  {
    forall p, q | 0 <= p < q < hi - lo ensures Precedes(s[lo..hi][p], s[lo..hi][q]) {
      assert s[lo..hi][p] == s[lo + p] && s[lo..hi][q] == s[lo + q];
    }
  }
}
