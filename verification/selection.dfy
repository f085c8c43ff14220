/** The top-N selector of top_n_similar (utils/similarity.py), over an
    abstract sequence of scores. A result is a sequence of (index, score)
    pairs; ties between equal scores may come out in any order, as with
    np.argsort and np.argpartition, so no contract here fixes one. */
module Selection {
  /** Python's min on two integers: min(n, N) bounds how many rows are
      returned. */
  function Min(a: int, b: int): int
  {
    if a <= b then a else b
  }

  type Scores = seq<real>

  datatype Match = Match(index: nat, score: real)

  /** Every index addresses a score. */
  predicate InRange(s: Scores, ix: seq<nat>)
  {
    forall k :: 0 <= k < |ix| ==> ix[k] < |s|
  }

  predicate Distinct(ix: seq<nat>)
  {
    forall a, b :: 0 <= a < b < |ix| ==> ix[a] != ix[b]
  }

  /** Scores are non-increasing along the index sequence. */
  predicate SortedDesc(s: Scores, ix: seq<nat>)
    requires InRange(s, ix)
  {
    forall a, b :: 0 <= a < b < |ix| ==> s[ix[a]] >= s[ix[b]]
  }

  /** Every chosen index scores at least as high as every index below
      `bound` that was not chosen. */
  predicate Dominates(s: Scores, chosen: seq<nat>, bound: nat)
    requires InRange(s, chosen) && bound <= |s|
  {
    forall k, u :: 0 <= k < |chosen| && 0 <= u < bound && u !in chosen ==> s[chosen[k]] >= s[u]
  }

  /** 0, 1, ..., n-1: the identity ordering np.argsort starts from. */
  function Range(n: nat): (r: seq<nat>)
    ensures |r| == n
    ensures forall k :: 0 <= k < n ==> r[k] == k
  {
    if n == 0 then [] else Range(n - 1) + [n - 1]
  }

  lemma RangeCovers(n: nat)
    ensures forall u :: 0 <= u < n ==> u in Range(n)
  {
    forall u | 0 <= u < n ensures u in Range(n) {
      assert Range(n)[u] == u;
    }
  }

  function Indices(r: seq<Match>): (ix: seq<nat>)
    ensures |ix| == |r|
    ensures forall k :: 0 <= k < |r| ==> ix[k] == r[k].index
  {
    seq(|r|, k requires 0 <= k < |r| => r[k].index)
  }

  /** Inserts index `i` into a score-sorted index sequence, after every index
      of equal or higher score. */
  function Insert(s: Scores, i: nat, sorted: seq<nat>): (r: seq<nat>)
    requires i < |s| && InRange(s, sorted) && SortedDesc(s, sorted)
    ensures InRange(s, r) && SortedDesc(s, r)
    ensures forall x :: x in r <==> x == i || x in sorted
    ensures multiset(r) == multiset(sorted) + multiset{i}
    ensures Distinct(sorted) && i !in sorted ==> Distinct(r)
  {
    if sorted == [] || s[i] > s[sorted[0]] then
      ConsDistinct(i, sorted);
      [i] + sorted
    else
      TailSorted(s, sorted);
      var rest := Insert(s, i, sorted[1..]);
      HeadDominates(s, sorted[0], i, sorted[1..], rest);
      assert sorted == [sorted[0]] + sorted[1..];
      TailDistinct(sorted);
      ConsDistinct(sorted[0], rest);
      [sorted[0]] + rest
  }

  /** The tail of a score-sorted index sequence is score-sorted. */
  lemma TailSorted(s: Scores, ix: seq<nat>)
    requires |ix| > 0 && InRange(s, ix) && SortedDesc(s, ix)
    ensures InRange(s, ix[1..]) && SortedDesc(s, ix[1..])
  {
    forall a, b | 0 <= a < b < |ix[1..]| ensures s[ix[1..][a]] >= s[ix[1..][b]] {
      assert ix[1..][a] == ix[a + 1] && ix[1..][b] == ix[b + 1];
    }
  }

  lemma TailDistinct(ix: seq<nat>)
    requires |ix| > 0
    ensures Distinct(ix) ==> Distinct(ix[1..]) && ix[0] !in ix[1..]
  {
    if Distinct(ix) {
      forall a, b | 0 <= a < b < |ix[1..]| ensures ix[1..][a] != ix[1..][b] {
        assert ix[1..][a] == ix[a + 1] && ix[1..][b] == ix[b + 1];
      }
    }
  }

  lemma ConsDistinct(h: nat, t: seq<nat>)
    ensures h !in t && Distinct(t) ==> Distinct([h] + t)
  {
    if h !in t && Distinct(t) {
      var r := [h] + t;
      forall a, b | 0 <= a < b < |r| ensures r[a] != r[b] {
        assert r[b] == t[b - 1];
        if a > 0 {
          assert r[a] == t[a - 1];
        }
      }
    }
  }

  /** Consing a head that scores at least as high as everything in a sorted
      tail keeps it sorted. */
  lemma HeadDominates(s: Scores, h: nat, i: nat, tail: seq<nat>, rest: seq<nat>)
    requires h < |s| && i < |s| && InRange(s, tail) && InRange(s, rest)
    requires SortedDesc(s, [h] + tail) && SortedDesc(s, rest) && s[i] <= s[h]
    requires forall x :: x in rest ==> x == i || x in tail
    ensures InRange(s, [h] + rest) && SortedDesc(s, [h] + rest)
  {
    var r := [h] + rest;
    forall a, b | 0 <= a < b < |r| ensures s[r[a]] >= s[r[b]] {
      if a == 0 {
        assert r[0] == h && r[b] in rest;
        if r[b] != i {
          var j :| 0 <= j < |tail| && tail[j] == r[b];
          assert ([h] + tail)[0] == h && ([h] + tail)[j + 1] == r[b];
        }
      } else {
        assert r[a] == rest[a - 1] && r[b] == rest[b - 1];
      }
    }
  }

  /** Sorts an index sequence by descending score: the argsort of the
      negated scores restricted to `ix`. */
  function SortDesc(s: Scores, ix: seq<nat>): (r: seq<nat>)
    requires InRange(s, ix)
    ensures InRange(s, r) && SortedDesc(s, r)
    ensures multiset(r) == multiset(ix)
    ensures forall x :: x in r <==> x in ix
    ensures Distinct(ix) ==> Distinct(r)
  {
    if ix == [] then []
    else
      assert ix == [ix[0]] + ix[1..];
      assert InRange(s, ix[1..]) by {
        forall k | 0 <= k < |ix[1..]| ensures ix[1..][k] < |s| {
          assert ix[1..][k] == ix[k + 1];
        }
      }
      var tail := SortDesc(s, ix[1..]);
      TailDistinct(ix);
      assert multiset(ix) == multiset(ix[1..]) + multiset{ix[0]};
      Insert(s, ix[0], tail)
  }

  /** Position in `c` of a lowest-scoring index. */
  function MinAt(s: Scores, c: seq<nat>): (m: nat)
    requires |c| > 0 && InRange(s, c)
    ensures m < |c|
    ensures forall k :: 0 <= k < |c| ==> s[c[m]] <= s[c[k]]
  {
    if |c| == 1 then 0
    else
      var m := MinAt(s, c[1..]);
      assert c[1..][m] == c[m + 1];
      if s[c[0]] <= s[c[m + 1]] then 0 else m + 1
  }

  /** The `n` best-scoring indices among 0..j-1, in no particular order: what
      np.argpartition(-sims, n-1)[:n] isolates, computed here by a single
      pass that keeps the best `n` seen so far and evicts the lowest-scoring
      one when a strictly better index arrives. */
  function Partition(s: Scores, n: nat, j: nat): (c: seq<nat>)
    requires j <= |s|
    ensures |c| == Min(n, j)
    ensures forall k :: 0 <= k < |c| ==> c[k] < j
    ensures j <= n ==> c == Range(j)
    ensures Distinct(c)
    ensures Dominates(s, c, j)
    decreases j
  {
    if j == 0 then [] else Step(s, n, Partition(s, n, j - 1), j - 1)
  }

  /** One step of the pass: index `j` is offered to the best `n` among 0..j-1. */
  function Step(s: Scores, n: nat, c: seq<nat>, j: nat): (c': seq<nat>)
    requires j < |s| && |c| == Min(n, j)
    requires forall k :: 0 <= k < |c| ==> c[k] < j
    requires j <= n ==> c == Range(j)
    requires Distinct(c) && Dominates(s, c, j)
    ensures |c'| == Min(n, j + 1)
    ensures forall k :: 0 <= k < |c'| ==> c'[k] < j + 1
    ensures j + 1 <= n ==> c' == Range(j + 1)
    ensures Distinct(c') && Dominates(s, c', j + 1)
  {
    if |c| < n then
      AppendKeepsTop(s, c, j);
      c + [j]
    else if |c| == 0 then
      c
    else
      var m := MinAt(s, c);
      if s[j] > s[c[m]] then
        EvictKeepsTop(s, c, m, j, c[m := j]);
        c[m := j]
      else
        RejectKeepsTop(s, c, m, j);
        c
  }

  /** While fewer than `n` indices have been seen, all of them are kept. */
  lemma AppendKeepsTop(s: Scores, c: seq<nat>, j: nat)
    requires j < |s| && c == Range(j)
    ensures c + [j] == Range(j + 1)
    ensures Distinct(c + [j]) && Dominates(s, c + [j], j + 1)
  {
    assert c + [j] == Range(j + 1);
    RangeCovers(j + 1);
  }

  /** Replacing the lowest chosen index by a strictly better newcomer keeps
      the chosen indices on top. */
  lemma EvictKeepsTop(s: Scores, c: seq<nat>, m: nat, j: nat, c': seq<nat>)
    requires j < |s| && m < |c| && c' == c[m := j]
    requires forall k :: 0 <= k < |c| ==> c[k] < j
    requires Distinct(c) && Dominates(s, c, j)
    requires forall k :: 0 <= k < |c| ==> s[c[m]] <= s[c[k]]
    requires s[j] > s[c[m]]
    ensures forall k :: 0 <= k < |c'| ==> c'[k] < j + 1
    ensures Distinct(c') && Dominates(s, c', j + 1)
  {
    forall a, b | 0 <= a < b < |c'| ensures c'[a] != c'[b] {
    }
    forall k, u | 0 <= k < |c'| && 0 <= u < j + 1 && u !in c' ensures s[c'[k]] >= s[u] {
      assert s[c'[k]] >= s[c[m]];
      if u != c[m] {
        assert u != j by { assert c'[m] == j; }
        forall i | 0 <= i < |c| ensures c[i] != u {
          if i != m { assert c'[i] == c[i]; }
        }
        assert u !in c;
      }
    }
  }

  /** A newcomer that does not beat the lowest chosen index stays out, and
      the chosen indices stay on top. */
  lemma RejectKeepsTop(s: Scores, c: seq<nat>, m: nat, j: nat)
    requires j < |s| && m < |c|
    requires forall k :: 0 <= k < |c| ==> c[k] < j
    requires Dominates(s, c, j)
    requires forall k :: 0 <= k < |c| ==> s[c[m]] <= s[c[k]]
    requires s[j] <= s[c[m]]
    ensures Dominates(s, c, j + 1)
  {
  }

  /** Pairs each index with its own score. */
  function Pair(s: Scores, order: seq<nat>): (r: seq<Match>)
    requires InRange(s, order)
    ensures Indices(r) == order
    ensures forall k :: 0 <= k < |r| ==> r[k].score == s[r[k].index]
  {
    seq(|order|, k requires 0 <= k < |order| => Match(order[k], s[order[k]]))
  }

  /** Sorting a chosen set of indices keeps it distinct and on top. */
  lemma SortKeepsTop(s: Scores, chosen: seq<nat>, order: seq<nat>)
    requires InRange(s, chosen) && Distinct(chosen) && Dominates(s, chosen, |s|)
    requires InRange(s, order) && multiset(order) == multiset(chosen)
    requires Distinct(chosen) ==> Distinct(order)
    ensures |order| == |chosen|
    ensures Distinct(order) && Dominates(s, order, |s|)
  {
    assert |multiset(order)| == |multiset(chosen)|;
    forall k, u | 0 <= k < |order| && 0 <= u < |s| && u !in order
      ensures s[order[k]] >= s[u]
    {
      assert order[k] in multiset(chosen);
      var i :| 0 <= i < |chosen| && chosen[i] == order[k];
      assert u !in multiset(order);
    }
  }

  /** The selection step of top_n_similar over precomputed scores: the
      min(n, N) best indices, each paired with its own score, best first.
      When n covers every score the indices are a permutation of 0..N-1. */
  function TopN(s: Scores, n: nat): (r: seq<Match>)
    ensures |r| == Min(n, |s|)
    ensures forall k :: 0 <= k < |r| ==> r[k].index < |s| && r[k].score == s[r[k].index]
    ensures Distinct(Indices(r))
    ensures forall a, b :: 0 <= a < b < |r| ==> r[a].score >= r[b].score
    ensures forall k, u :: 0 <= k < |r| && 0 <= u < |s| && u !in Indices(r) ==> r[k].score >= s[u]
    ensures n >= |s| ==> multiset(Indices(r)) == multiset(Range(|s|))
  {
    if |s| == 0 then []
    else
      var k := Min(n, |s|);
      var chosen := if k == |s| then Range(|s|) else Partition(s, k, |s|);
      RangeCovers(|s|);
      var order := SortDesc(s, chosen);
      SortKeepsTop(s, chosen, order);
      Pair(s, order)
  }
}
