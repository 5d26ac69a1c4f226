/** marker_variation.sort_values(ascending=False).head(top_n): the markers in
    decreasing order of their variability score, cut to the first N. */
module Ranking {
  import opened Frames

  /** Variability score by marker. A marker missing from the map has an
      undefined (NaN) score, as the standard deviation over a single group. */
  type Scores = map<string, real>

  /** a must come before b in a descending sort: a has the higher score, or a
      has a score and b has none (NaN is placed last). Equal scores are tied
      and may come in either order. */
  predicate Outranks(score: Scores, a: string, b: string) {
    a in score && (b !in score || score[a] > score[b])
  }

  /** No marker is placed after one it outranks. */
  predicate SortedByScore(score: Scores, s: seq<string>) {
    forall i, j | 0 <= i < j < |s| :: !Outranks(score, s[j], s[i])
  }

  /** Puts m in front of the first marker it outranks. */
  function Insert(score: Scores, m: string, s: seq<string>): (r: seq<string>)
    ensures |r| == |s| + 1
    ensures multiset(r) == multiset(s) + multiset{m}
  {
    if s == [] then [m]
    else if Outranks(score, m, s[0]) then [m] + s
    else
      assert s == [s[0]] + s[1..];
      [s[0]] + Insert(score, m, s[1..])
  }

  /** sort_values(ascending=False) on the scores of the markers ms. */
  function SortByScore(score: Scores, ms: seq<string>): (r: seq<string>)
    ensures |r| == |ms|
    ensures multiset(r) == multiset(ms)
  {
    if ms == [] then []
    else
      assert ms == [ms[0]] + ms[1..];
      Insert(score, ms[0], SortByScore(score, ms[1..]))
  }

  lemma {:induction false} InsertSorted(score: Scores, m: string, s: seq<string>)
    requires SortedByScore(score, s)
    ensures SortedByScore(score, Insert(score, m, s))
  {
    if s != [] && !Outranks(score, m, s[0]) {
      InsertSorted(score, m, s[1..]);
      var rest := Insert(score, m, s[1..]);
      forall x | x in rest
        ensures !Outranks(score, x, s[0])
      {
        assert x in multiset(rest);
        assert x in s[1..] || x == m;
      }
    }
  }

  lemma {:induction false} InsertDistinct(score: Scores, m: string, s: seq<string>)
    requires AllDistinct(s) && m !in s
    ensures AllDistinct(Insert(score, m, s))
  {
    if s != [] && !Outranks(score, m, s[0]) {
      InsertDistinct(score, m, s[1..]);
      var rest := Insert(score, m, s[1..]);
      assert s[0] !in multiset(rest);
    }
  }

  /** The sorted list is a permutation of the markers in which no marker
      comes after one it outranks; distinct markers stay distinct. */
  lemma {:induction false} SortByScoreSorted(score: Scores, ms: seq<string>)
    ensures multiset(SortByScore(score, ms)) == multiset(ms)
    ensures SortedByScore(score, SortByScore(score, ms))
    ensures AllDistinct(ms) ==> AllDistinct(SortByScore(score, ms))
  {
    if ms != [] {
      SortByScoreSorted(score, ms[1..]);
      var rest := SortByScore(score, ms[1..]);
      InsertSorted(score, ms[0], rest);
      if AllDistinct(ms) {
        assert ms[0] !in ms[1..];
        assert ms[0] !in multiset(rest);
        InsertDistinct(score, ms[0], rest);
      }
    }
  }

  function Min(a: nat, b: nat): nat {
    if a <= b then a else b
  }

  /** list(marker_variation.head(n).index) */
  function TopN(score: Scores, ms: seq<string>, n: nat): seq<string> {
    SortByScore(score, ms)[..Min(n, |ms|)]
  }

  /** In a sorted list, nothing after the cut outranks anything before it. */
  lemma CutOfSorted(score: Scores, sorted: seq<string>, k: nat)
    requires SortedByScore(score, sorted) && k <= |sorted|
    ensures forall m, t | m in sorted && m !in sorted[..k] && t in sorted[..k] :: !Outranks(score, m, t)
  {
    forall m, t | m in sorted && m !in sorted[..k] && t in sorted[..k]
      ensures !Outranks(score, m, t)
    {
      var j :| 0 <= j < |sorted| && sorted[j] == m;
      var i :| 0 <= i < k && sorted[..k][i] == t;
      assert j >= k;
    }
  }

  /** A prefix is a sub-multiset, and keeps sortedness and distinctness. */
  lemma PrefixOfSorted(score: Scores, s: seq<string>, k: nat)
    requires k <= |s|
    ensures multiset(s[..k]) <= multiset(s)
    ensures SortedByScore(score, s) ==> SortedByScore(score, s[..k])
    ensures AllDistinct(s) ==> AllDistinct(s[..k])
  {
    assert s == s[..k] + s[k..];
    assert multiset(s) == multiset(s[..k]) + multiset(s[k..]);
  }

  /** The top-N list has min(N, |ms|) markers, all taken from ms (distinct
      when ms is), in non-increasing score order, and no marker left out
      outranks one that was kept. */
  lemma TopNIsBest(score: Scores, ms: seq<string>, n: nat)
    ensures |TopN(score, ms, n)| == Min(n, |ms|)
    ensures multiset(TopN(score, ms, n)) <= multiset(ms)
    ensures SortedByScore(score, TopN(score, ms, n))
    ensures AllDistinct(ms) ==> AllDistinct(TopN(score, ms, n))
    ensures forall m, t | m in ms && m !in TopN(score, ms, n) && t in TopN(score, ms, n) :: !Outranks(score, m, t)
  {
    SortByScoreSorted(score, ms);
    var sorted := SortByScore(score, ms);
    var k := Min(n, |ms|);
    var top := sorted[..k];
    assert TopN(score, ms, n) == top;
    PrefixOfSorted(score, sorted, k);
    CutOfSorted(score, sorted, k);
    forall m | m in ms
      ensures m in sorted
    {
      assert m in multiset(ms);
    }
  }
}
