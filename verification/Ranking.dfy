/**
  Ranking by token hits: the in-place stable sort, specified independently as the one listing
  of the matching chunks in descending score with ties in insertion order.
*/
module Ranking {
  import opened Words
  import opened TokenBudget

  datatype Chunk = Chunk(tenant: string, source: string, chunkId: string, content: string, index: nat)

  /** `needle in hay`. */
  predicate Contains(hay: string, needle: string) {
    needle <= hay || (hay != "" && Contains(hay[1..], needle))
  }

  function Score(tokens: seq<string>, content: string): nat {
    if tokens == [] then 0
    else Score(tokens[..|tokens| - 1], content) + if Contains(content, tokens[|tokens| - 1]) then 1 else 0
  }

  /** The needle stands in the hay at place i. */
  predicate StandsAt(hay: string, needle: string, i: int) {
    0 <= i <= |hay| - |needle| && hay[i..i + |needle|] == needle
  }

  /** It stands there at some place. */
  ghost predicate Occurs(hay: string, needle: string) {
    exists i :: StandsAt(hay, needle, i)
  }

  /** The test finds the needle wherever it stands. */
  lemma {:induction false} ContainsIffOccurs(hay: string, needle: string)
    ensures Contains(hay, needle) <==> Occurs(hay, needle)
  {
    if needle <= hay {
      assert StandsAt(hay, needle, 0);
    } else if hay != "" {
      ContainsIffOccurs(hay[1..], needle);
      assert forall i | i > 0 :: StandsAt(hay, needle, i) <==> StandsAt(hay[1..], needle, i - 1);
      if i :| StandsAt(hay[1..], needle, i) { assert StandsAt(hay, needle, i + 1); }
      if i :| StandsAt(hay, needle, i) { assert i > 0 && StandsAt(hay[1..], needle, i - 1); }
    }
  }

  /** The places of the tokens that occur. */
  ghost function Hits(tokens: seq<string>, content: string): set<nat> {
    set k: nat | k < |tokens| && Occurs(content, tokens[k])
  }

  /** The score is the number of tokens that occur in the content, each counted as often as it was asked. */
  lemma {:induction false} ScoreCountsHits(tokens: seq<string>, content: string)
    ensures Score(tokens, content) == |Hits(tokens, content)|
  {
    if tokens != [] {
      var n := |tokens| - 1;
      ScoreCountsHits(tokens[..n], content);
      ContainsIffOccurs(content, tokens[n]);
      assert Hits(tokens, content) == Hits(tokens[..n], content) + if Occurs(content, tokens[n]) then {n} else {};
    }
  }

  // -------------------------------------------- list.sort(key=score, reverse=True)

  datatype Scored<T> = Scored(score: nat, item: T)

  /** Behind every element of at least the same score. */
  function Insert<T>(sorted: seq<Scored<T>>, x: Scored<T>): seq<Scored<T>> {
    if sorted == [] then [x]
    else if sorted[0].score >= x.score then [sorted[0]] + Insert(sorted[1..], x)
    else [x] + sorted
  }

  /** Stable, descending. */
  function SortByScore<T>(xs: seq<Scored<T>>): seq<Scored<T>> {
    if xs == [] then [] else Insert(SortByScore(xs[..|xs| - 1]), xs[|xs| - 1])
  }

  // -------------------------------------------------------- the specification

  /** i comes before j: a higher score, or the same score and an earlier place. */
  predicate Before(scores: seq<nat>, i: nat, j: nat)
    requires i < |scores| && j < |scores|
  {
    scores[i] > scores[j] || (scores[i] == scores[j] && i < j)
  }

  /** `order` lists the places with a positive score, each once, best first, ties in place order. */
  ghost predicate StableRanking(scores: seq<nat>, order: seq<nat>) {
    && (forall k | 0 <= k < |order| :: order[k] < |scores| && scores[order[k]] > 0)
    && (forall i | 0 <= i < |scores| && scores[i] > 0 :: i in order)
    && (forall k, l | 0 <= k < l < |order| :: Before(scores, order[k], order[l]))
  }

  lemma RankingDistinct(scores: seq<nat>, order: seq<nat>)
    requires StableRanking(scores, order)
    ensures forall k, l | 0 <= k < |order| && 0 <= l < |order| && order[k] == order[l] :: k == l
  {
    forall k, l | 0 <= k < l < |order| ensures order[k] != order[l] {
      assert Before(scores, order[k], order[l]);
    }
  }

  lemma BeforeAsymmetric(scores: seq<nat>)
    ensures forall i, j | 0 <= i < |scores| && 0 <= j < |scores| && Before(scores, i, j) :: !Before(scores, j, i)
  {
  }

  lemma {:induction false} SamePrefix(scores: seq<nat>, a: seq<nat>, b: seq<nat>, n: nat)
    requires StableRanking(scores, a) && StableRanking(scores, b) && n <= |a|
    ensures n <= |b| && forall k | 0 <= k < n :: a[k] == b[k]
  {
    if n > 0 {
      SamePrefix(scores, a, b, n - 1);
      RankingDistinct(scores, a);
      RankingDistinct(scores, b);
      BeforeAsymmetric(scores);
      assert a[n - 1] in b;
      var j :| 0 <= j < |b| && b[j] == a[n - 1];
      assert b[n - 1] in a;
      var i :| 0 <= i < |a| && a[i] == b[n - 1];
    }
  }

  /** There is only one such listing. */
  lemma StableRankingUnique(scores: seq<nat>, a: seq<nat>, b: seq<nat>)
    requires StableRanking(scores, a) && StableRanking(scores, b)
    ensures a == b
  {
    SamePrefix(scores, a, b, |a|);
    SamePrefix(scores, b, a, |b|);
  }

  // --------------------------------------------------- the sort meets the spec

  /** The first n places with a positive score, each paired with it, in place order. */
  function Positive(scores: seq<nat>, n: nat): seq<Scored<nat>>
    requires n <= |scores|
  {
    if n == 0 then []
    else Positive(scores, n - 1) + if scores[n - 1] > 0 then [Scored(scores[n - 1], n - 1)] else []
  }

  function Places(xs: seq<Scored<nat>>): seq<nat> {
    seq(|xs|, i requires 0 <= i < |xs| => xs[i].item)
  }

  /** The listing the sort computes. */
  function Ranked(scores: seq<nat>): seq<nat> {
    Places(SortByScore(Positive(scores, |scores|)))
  }

  ghost predicate Tagged(scores: seq<nat>, xs: seq<Scored<nat>>) {
    forall i | 0 <= i < |xs| :: xs[i].item < |scores| && xs[i].score == scores[xs[i].item]
  }

  ghost predicate SortedTagged(scores: seq<nat>, xs: seq<Scored<nat>>)
    requires Tagged(scores, xs)
  {
    forall k, l | 0 <= k < l < |xs| :: Before(scores, xs[k].item, xs[l].item)
  }

  lemma {:induction false} InsertMembers<T>(xs: seq<Scored<T>>, x: Scored<T>)
    ensures forall y :: y in Insert(xs, x) <==> y in xs || y == x
    ensures |Insert(xs, x)| == |xs| + 1
  {
    if xs != [] && xs[0].score >= x.score {
      InsertMembers(xs[1..], x);
      assert xs == [xs[0]] + xs[1..];
    }
  }

  /** Inserting the latest place keeps the listing sorted. */
  lemma {:induction false} InsertSorted(scores: seq<nat>, xs: seq<Scored<nat>>, x: Scored<nat>)
    requires Tagged(scores, xs) && SortedTagged(scores, xs)
    requires x.item < |scores| && x.score == scores[x.item]
    requires forall i | 0 <= i < |xs| :: xs[i].item < x.item
    ensures Tagged(scores, Insert(xs, x)) && SortedTagged(scores, Insert(xs, x))
  {
    InsertMembers(xs, x);
    if xs != [] {
      if xs[0].score >= x.score {
        InsertSorted(scores, xs[1..], x);
        InsertMembers(xs[1..], x);
        var tail := Insert(xs[1..], x);
        assert Insert(xs, x) == [xs[0]] + tail;
        forall l | 0 <= l < |tail| ensures Before(scores, xs[0].item, tail[l].item) {
          assert tail[l] in tail;
          if tail[l] != x {
            var m :| 0 <= m < |xs[1..]| && xs[1..][m] == tail[l];
            assert xs[m + 1] == tail[l];
          }
        }
      } else {
        forall l | 0 <= l < |xs| ensures Before(scores, x.item, xs[l].item) {
          assert l == 0 || Before(scores, xs[0].item, xs[l].item);
        }
      }
    }
  }

  ghost predicate Listed(scores: seq<nat>, n: nat, xs: seq<Scored<nat>>)
    requires n <= |scores|
  {
    && (forall x | x in xs :: x.item < n && x.score == scores[x.item] && x.score > 0)
    && (forall i | 0 <= i < n && scores[i] > 0 :: Scored(scores[i], i) in xs)
  }

  lemma ListedTagged(scores: seq<nat>, n: nat, xs: seq<Scored<nat>>)
    requires n <= |scores| && Listed(scores, n, xs)
    ensures Tagged(scores, xs) && forall i | 0 <= i < |xs| :: xs[i].item < n && scores[xs[i].item] > 0
  {
    forall i | 0 <= i < |xs| ensures xs[i].item < n && xs[i].score == scores[xs[i].item] && scores[xs[i].item] > 0 {
      assert xs[i] in xs;
    }
  }

  /** xs lists exactly the first n places with a positive score, best first. */
  ghost predicate Sorts(scores: seq<nat>, n: nat, xs: seq<Scored<nat>>)
    requires n <= |scores|
  {
    Listed(scores, n, xs) && Tagged(scores, xs) && SortedTagged(scores, xs)
  }

  lemma InsertSorts(scores: seq<nat>, n: nat, sorted: seq<Scored<nat>>)
    requires 0 < n <= |scores| && scores[n - 1] > 0 && Sorts(scores, n - 1, sorted)
    ensures Sorts(scores, n, Insert(sorted, Scored(scores[n - 1], n - 1)))
  {
    var x: Scored<nat> := Scored(scores[n - 1], n - 1);
    ListedTagged(scores, n - 1, sorted);
    InsertSorted(scores, sorted, x);
    InsertMembers(sorted, x);
  }

  lemma SkipSorts(scores: seq<nat>, n: nat, sorted: seq<Scored<nat>>)
    requires 0 < n <= |scores| && scores[n - 1] == 0 && Sorts(scores, n - 1, sorted)
    ensures Sorts(scores, n, sorted)
  {
  }

  lemma SortNext(scores: seq<nat>, n: nat)
    requires 0 < n <= |scores|
    ensures SortByScore(Positive(scores, n))
         == var sorted := SortByScore(Positive(scores, n - 1));
            if scores[n - 1] > 0 then Insert(sorted, Scored(scores[n - 1], n - 1)) else sorted
  {
    var init := Positive(scores, n - 1);
    if scores[n - 1] > 0 {
      assert Positive(scores, n)[..|init|] == init;
    } else {
      assert Positive(scores, n) == init;
    }
  }

  lemma {:induction false} SortPositive(scores: seq<nat>, n: nat)
    requires n <= |scores|
    ensures Sorts(scores, n, SortByScore(Positive(scores, n)))
  {
    if n > 0 {
      SortPositive(scores, n - 1);
      SortNext(scores, n);
      var sorted := SortByScore(Positive(scores, n - 1));
      if scores[n - 1] > 0 { InsertSorts(scores, n, sorted); } else { SkipSorts(scores, n, sorted); }
    }
  }

  /** The stable sort computes the one stable ranking. */
  lemma SortIsStableRanking(scores: seq<nat>)
    ensures StableRanking(scores, Ranked(scores))
  {
    var xs := SortByScore(Positive(scores, |scores|));
    SortPositive(scores, |scores|);
    ListedTagged(scores, |scores|, xs);
    forall i | 0 <= i < |scores| && scores[i] > 0 ensures i in Ranked(scores) {
      var m :| 0 <= m < |xs| && xs[m] == Scored(scores[i], i);
      assert Ranked(scores)[m] == i;
    }
  }
}
