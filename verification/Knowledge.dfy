/**
  Knowledge search: what a query answers, stated without the sort, and the two classes that
  compute it over the chunks they hold in memory.
*/
module Knowledge {
  import opened Words
  import opened TokenBudget
  import opened Ranking

  // ------------------------------------------------------------ specification

  function InTenant(chunks: seq<Chunk>, tenant: string): seq<Chunk> {
    if chunks == [] then []
    else
      InTenant(chunks[..|chunks| - 1], tenant)
      + if chunks[|chunks| - 1].tenant == tenant then [chunks[|chunks| - 1]] else []
  }

  /** How many of the tokens each chunk contains; `lower` is `str.lower`. */
  function Scores(lower: string -> string, tokens: seq<string>, chunks: seq<Chunk>): seq<nat> {
    seq<nat>(|chunks|, i requires 0 <= i < |chunks| => Score(tokens, lower(chunks[i].content)))
  }

  function Pick<T>(xs: seq<T>, order: seq<nat>): seq<T>
    requires forall k | 0 <= k < |order| :: order[k] < |xs|
  {
    seq(|order|, k requires 0 <= k < |order| => xs[order[k]])
  }

  /** r is the answer to a query over these candidates. */
  ghost predicate Answers(lower: string -> string, chunks: seq<Chunk>, query: string, limit: int, r: seq<Chunk>) {
    var normalized := Strip(lower(query));
    if normalized == "" then r == Slice(chunks, limit)
    else
      exists order ::
        && StableRanking(Scores(lower, Split(normalized), chunks), order)
        && r == Slice(Pick(chunks, order), limit)
  }

  /** Some word of the query occurs in the chunk, letter case aside. */
  ghost predicate Matches(lower: string -> string, query: string, c: Chunk) {
    exists k: nat | k < |Split(lower(query))| :: Occurs(lower(c.content), Split(lower(query))[k])
  }

  /** How many of them do. */
  ghost function HitCount(lower: string -> string, query: string, c: Chunk): nat {
    |Hits(Split(lower(query)), lower(c.content))|
  }

  /** The scores by which chunks are ranked count the words of the query that occur in them. */
  lemma ScoresCountHits(lower: string -> string, query: string, chunks: seq<Chunk>)
    ensures var scores := Scores(lower, Split(Strip(lower(query))), chunks);
      forall i | 0 <= i < |chunks| ::
        && scores[i] == HitCount(lower, query, chunks[i])
        && (scores[i] > 0 <==> Matches(lower, query, chunks[i]))
  {
    SplitStrip(lower(query));
    var tokens := Split(lower(query));
    forall i | 0 <= i < |chunks|
      ensures Score(tokens, lower(chunks[i].content)) == HitCount(lower, query, chunks[i])
      ensures HitCount(lower, query, chunks[i]) > 0 <==> Matches(lower, query, chunks[i])
    {
      ScoreCountsHits(tokens, lower(chunks[i].content));
      if Matches(lower, query, chunks[i]) {
        var k: nat :| k < |tokens| && Occurs(lower(chunks[i].content), tokens[k]);
        assert k in Hits(tokens, lower(chunks[i].content));
      }
    }
  }

  /**
    What a query answers, in its own words: without words, the first chunks; otherwise only
    chunks in which a word of it occurs, in the order of how many do, and all of these when the
    limit has room for them.
  */
  ghost predicate Finds(lower: string -> string, chunks: seq<Chunk>, query: string, limit: int, r: seq<Chunk>) {
    if Split(lower(query)) == [] then r == Slice(chunks, limit)
    else
      && (forall c | c in r :: c in chunks && Matches(lower, query, c))
      && (forall i, j | 0 <= i < j < |r| :: HitCount(lower, query, r[i]) >= HitCount(lower, query, r[j]))
      && (limit >= |chunks| ==> forall c | c in chunks && Matches(lower, query, c) :: c in r)
  }

  lemma AnswersFind(lower: string -> string, chunks: seq<Chunk>, query: string, limit: int, r: seq<Chunk>)
    requires Answers(lower, chunks, query, limit, r)
    ensures Finds(lower, chunks, query, limit, r)
  {
    NoWordsIff(lower(query));
    var normalized := Strip(lower(query));
    if normalized != "" {
      var scores := Scores(lower, Split(normalized), chunks);
      ScoresCountHits(lower, query, chunks);
      var order :| StableRanking(scores, order) && r == Slice(Pick(chunks, order), limit);
      PickFinds(lower, chunks, query, limit, scores, order);
    }
  }

  lemma PickFinds(lower: string -> string, chunks: seq<Chunk>, query: string, limit: int, scores: seq<nat>,
                  order: seq<nat>)
    requires |scores| == |chunks| && StableRanking(scores, order) && Split(lower(query)) != []
    requires forall i | 0 <= i < |chunks| ::
               scores[i] == HitCount(lower, query, chunks[i]) && (scores[i] > 0 <==> Matches(lower, query, chunks[i]))
    ensures Finds(lower, chunks, query, limit, Slice(Pick(chunks, order), limit))
  {
    var picked := Pick(chunks, order);
    var r := Slice(picked, limit);
    forall i | 0 <= i < |r| ensures r[i] == chunks[order[i]] && scores[order[i]] > 0 {
    }
    forall i, j | 0 <= i < j < |r| ensures HitCount(lower, query, r[i]) >= HitCount(lower, query, r[j]) {
      assert Before(scores, order[i], order[j]);
    }
    if limit >= |chunks| {
      RankingFits(scores, order);
      forall c | c in chunks && Matches(lower, query, c) ensures c in r {
        var i :| 0 <= i < |chunks| && chunks[i] == c;
        assert i in order;
        var k :| 0 <= k < |order| && order[k] == i;
        assert picked[k] == c;
      }
    }
  }

  /** A ranking is no longer than what it ranks. */
  lemma RankingFits(scores: seq<nat>, order: seq<nat>)
    requires StableRanking(scores, order)
    ensures |order| <= |scores|
  {
    RankingDistinct(scores, order);
    FewPlaces(order, |scores|);
  }

  lemma {:induction false} FewPlaces(order: seq<nat>, n: nat)
    requires forall k, l | 0 <= k < |order| && 0 <= l < |order| && order[k] == order[l] :: k == l
    requires forall k | 0 <= k < |order| :: order[k] < n
    ensures |order| <= n
    decreases n
  {
    if order != [] {
      assert order[0] < n;
      if k :| 0 <= k < |order| && order[k] == n - 1 {
        var rest := order[..k] + order[k + 1..];
        forall i | 0 <= i < |rest| ensures rest[i] == order[if i < k then i else i + 1] && rest[i] < n - 1 {
          assert order[if i < k then i else i + 1] != order[k];
        }
        FewPlaces(rest, n - 1);
      } else {
        FewPlaces(order, n - 1);
      }
    }
  }

  /** A query has one answer. */
  lemma AnswerUnique(lower: string -> string, chunks: seq<Chunk>, query: string, limit: int, r: seq<Chunk>,
                     s: seq<Chunk>)
    requires Answers(lower, chunks, query, limit, r) && Answers(lower, chunks, query, limit, s)
    ensures r == s
  {
    var normalized := Strip(lower(query));
    if normalized != "" {
      var scores := Scores(lower, Split(normalized), chunks);
      var a :| StableRanking(scores, a) && r == Slice(Pick(chunks, a), limit);
      var b :| StableRanking(scores, b) && s == Slice(Pick(chunks, b), limit);
      StableRankingUnique(scores, a, b);
    }
  }

  lemma SliceMembers<T(!new)>(xs: seq<T>, limit: nat)
    ensures forall m | 0 <= m < |xs| && m < limit :: xs[m] in Slice(xs, limit)
  {
    forall m | 0 <= m < |xs| && m < limit ensures xs[m] in Slice(xs, limit) {
      assert Slice(xs, limit)[m] == xs[m];
    }
  }

  /** Where a matching chunk that was cut off stands: after every chunk that was returned. */
  lemma NoOmittedChunkPrecedes(scores: seq<nat>, order: seq<nat>, limit: nat, k: nat, j: nat)
    requires StableRanking(scores, order)
    requires k < |Slice(order, limit)|
    requires j < |scores| && scores[j] > 0 && j !in Slice(order, limit)
    ensures Before(scores, Slice(order, limit)[k], j)
    ensures |Slice(order, limit)| == limit
  {
    var m :| 0 <= m < |order| && order[m] == j;
    SliceMembers(order, limit);
  }

  lemma {:induction false} InTenantConcat(a: seq<Chunk>, b: seq<Chunk>, tenant: string)
    ensures InTenant(a + b, tenant) == InTenant(a, tenant) + InTenant(b, tenant)
  {
    if b == [] {
      assert a + b == a;
    } else {
      assert (a + b)[..|a + b| - 1] == a + b[..|b| - 1];
      InTenantConcat(a, b[..|b| - 1], tenant);
      assert (a + b)[|a + b| - 1] == b[|b| - 1];
    }
  }

  /** A store of one chunk, and none; with InTenantConcat this says what a tenant sees of any store. */
  lemma InTenantOne(c: Chunk, tenant: string)
    ensures InTenant([], tenant) == []
    ensures InTenant([c], tenant) == if c.tenant == tenant then [c] else []
  {
    assert [c][..0] == [];
  }

  /** A tenant sees its own chunks, all of them, as often as they are there. */
  lemma {:induction false} InTenantCounts(chunks: seq<Chunk>, tenant: string, c: Chunk)
    ensures multiset(InTenant(chunks, tenant))[c] == if c.tenant == tenant then multiset(chunks)[c] else 0
  {
    if chunks != [] {
      var init, last := chunks[..|chunks| - 1], chunks[|chunks| - 1];
      InTenantCounts(init, tenant, c);
      assert chunks == init + [last];
    }
  }

  /** What a tenant sees of a store is what it would see of one that holds its own chunks alone. */
  lemma {:induction false} InTenantOf(chunks: seq<Chunk>, tenant: string)
    ensures InTenant(InTenant(chunks, tenant), tenant) == InTenant(chunks, tenant)
  {
    if chunks != [] {
      var init, last := chunks[..|chunks| - 1], chunks[|chunks| - 1];
      InTenantOf(init, tenant);
      if last.tenant == tenant {
        InTenantConcat(InTenant(init, tenant), [last], tenant);
        assert InTenant([last], tenant) == [last];
      } else {
        assert InTenant(init, tenant) + [] == InTenant(init, tenant);
      }
    }
  }

  lemma {:induction false} NothingForeign(chunks: seq<Chunk>, tenant: string)
    requires forall i | 0 <= i < |chunks| :: chunks[i].tenant != tenant
    ensures InTenant(chunks, tenant) == []
  {
    if chunks != [] { NothingForeign(chunks[..|chunks| - 1], tenant); }
  }

  /** Chunks of other tenants, wherever they stand in the store, change no answer. */
  lemma TenantsAreIsolated(lower: string -> string, a: seq<Chunk>, foreign: seq<Chunk>, b: seq<Chunk>, tenant: string,
                           query: string, limit: int, r: seq<Chunk>)
    requires forall i | 0 <= i < |foreign| :: foreign[i].tenant != tenant
    ensures Answers(lower, InTenant(a + foreign + b, tenant), query, limit, r)
            <==> Answers(lower, InTenant(a + b, tenant), query, limit, r)
  {
    NothingForeign(foreign, tenant);
    InTenantConcat(a + foreign, b, tenant);
    InTenantConcat(a, foreign, tenant);
    InTenantConcat(a, b, tenant);
    assert InTenant(a, tenant) + [] == InTenant(a, tenant);
  }

  // ------------------------------------------------ from the sort to the answer

  /** The scored places with the elements themselves in their stead. */
  function Carry<T>(xs: seq<T>, places: seq<Scored<nat>>): seq<Scored<T>>
    requires forall k | 0 <= k < |places| :: places[k].item < |xs|
  {
    seq(|places|, k requires 0 <= k < |places| => Scored(places[k].score, xs[places[k].item]))
  }

  ghost predicate Within(places: seq<Scored<nat>>, n: nat) {
    forall k | 0 <= k < |places| :: places[k].item < n
  }

  lemma {:induction false} InsertCarry<T>(xs: seq<T>, places: seq<Scored<nat>>, x: Scored<nat>)
    requires Within(places, |xs|) && x.item < |xs|
    ensures Within(Insert(places, x), |xs|)
    ensures Insert(Carry(xs, places), Scored(x.score, xs[x.item])) == Carry(xs, Insert(places, x))
  {
    if places != [] && places[0].score >= x.score {
      InsertCarry(xs, places[1..], x);
      assert Carry(xs, places)[1..] == Carry(xs, places[1..]);
    }
  }

  lemma {:induction false} SortCarry<T>(xs: seq<T>, places: seq<Scored<nat>>)
    requires Within(places, |xs|)
    ensures Within(SortByScore(places), |xs|)
    ensures SortByScore(Carry(xs, places)) == Carry(xs, SortByScore(places))
  {
    if places != [] {
      var init, x := places[..|places| - 1], places[|places| - 1];
      SortCarry(xs, init);
      InsertCarry(xs, SortByScore(init), x);
      assert Carry(xs, places)[..|places| - 1] == Carry(xs, init);
    }
  }

  lemma {:induction false} PositiveWithin(scores: seq<nat>, n: nat)
    requires n <= |scores|
    ensures Within(Positive(scores, n), n)
  {
    if n > 0 { PositiveWithin(scores, n - 1); }
  }

  function Items<T>(xs: seq<Scored<T>>): seq<T> {
    seq(|xs|, i requires 0 <= i < |xs| => xs[i].item)
  }

  /** Sorting the scored chunks and cutting answers the query. */
  lemma SortAnswers(lower: string -> string, chunks: seq<Chunk>, query: string, limit: int, scored: seq<Scored<Chunk>>)
    requires Strip(lower(query)) != ""
    requires var scores := Scores(lower, Split(Strip(lower(query))), chunks);
      Within(Positive(scores, |chunks|), |chunks|) && scored == Carry(chunks, Positive(scores, |chunks|))
    ensures Answers(lower, chunks, query, limit, Items(Slice(SortByScore(scored), limit)))
  {
    var scores := Scores(lower, Split(Strip(lower(query))), chunks);
    SortCarry(chunks, Positive(scores, |chunks|));
    SortIsStableRanking(scores);
    PickRanked(chunks, scores);
    SliceItems(SortByScore(scored), limit);
  }

  lemma PickRanked<T>(xs: seq<T>, scores: seq<nat>)
    requires |scores| == |xs| && Within(SortByScore(Positive(scores, |xs|)), |xs|)
    requires forall k | 0 <= k < |Ranked(scores)| :: Ranked(scores)[k] < |xs|
    ensures Items(Carry(xs, SortByScore(Positive(scores, |xs|)))) == Pick(xs, Ranked(scores))
  {
  }

  lemma SliceItems<T>(xs: seq<Scored<T>>, limit: int)
    ensures Items(Slice(xs, limit)) == Slice(Items(xs), limit)
  {
  }

  // ------------------------------------------------------------------ classes

  method CandidatesOf(chunks: seq<Chunk>, tenant: string) returns (candidates: seq<Chunk>)
    ensures candidates == InTenant(chunks, tenant)
  {
    candidates := [];
    for i := 0 to |chunks|
      invariant candidates == InTenant(chunks[..i], tenant)
    {
      assert chunks[..i + 1][..i] == chunks[..i];
      if chunks[i].tenant == tenant { candidates := candidates + [chunks[i]]; }
    }
    assert chunks[..|chunks|] == chunks;
  }

  method CountHits(tokens: seq<string>, content: string) returns (score: nat)
    ensures score == Score(tokens, content)
  {
    score := 0;
    for i := 0 to |tokens|
      invariant score == Score(tokens[..i], content)
    {
      assert tokens[..i + 1][..i] == tokens[..i];
      if Contains(content, tokens[i]) { score := score + 1; }
    }
    assert tokens[..|tokens|] == tokens;
  }

  /** The repository, in memory. */
  class KnowledgeRepository {
    var mem: seq<Chunk>

    constructor ()
      ensures mem == []
    {
      mem := [];
    }

    method AddChunks(chunks: seq<Chunk>)
      modifies this
      ensures mem == old(mem) + chunks
    {
      if chunks == [] { return; }
      mem := mem + chunks;
    }

    method Search(lower: string -> string, tenant: string, query: string, limit: int) returns (r: seq<Chunk>)
      ensures Answers(lower, InTenant(mem, tenant), query, limit, r)
      ensures Finds(lower, InTenant(mem, tenant), query, limit, r)
    {
      var normalized := Strip(lower(query));
      var candidates := CandidatesOf(mem, tenant);
      r := Rank(lower, candidates, normalized, limit, query);
    }

    /** `query` is the text that `normalized` comes from. */
    static method Rank(lower: string -> string, chunks: seq<Chunk>, normalized: string, limit: int, ghost query: string)
      returns (r: seq<Chunk>)
      requires normalized == Strip(lower(query))
      ensures Answers(lower, chunks, query, limit, r)
      ensures Finds(lower, chunks, query, limit, r)
    {
      if normalized == "" {
        AnswersFind(lower, chunks, query, limit, Slice(chunks, limit));
        return Slice(chunks, limit);
      }
      var tokens := Split(normalized);
      ghost var scores := Scores(lower, tokens, chunks);
      var scored: seq<Scored<Chunk>> := [];
      for i := 0 to |chunks|
        invariant Within(Positive(scores, i), |chunks|) && scored == Carry(chunks, Positive(scores, i))
      {
        var content := lower(chunks[i].content);
        var score := CountHits(tokens, content);
        if score > 0 { scored := scored + [Scored(score, chunks[i])]; }
      }
      SortAnswers(lower, chunks, query, limit, scored);
      scored := SortByScore(scored);
      r := Items(Slice(scored, limit));
      AnswersFind(lower, chunks, query, limit, r);
    }
  }

  /** The store in front of it, with a list and a ranking of its own for when it has none behind it. */
  class KnowledgeStore {
    const repository: KnowledgeRepository?
    var chunks: seq<Chunk>

    /** What a search looks through. */
    ghost function Held(): seq<Chunk>
      reads this, repository
    {
      if repository != null then repository.mem else chunks
    }

    constructor (repository: KnowledgeRepository?)
      ensures this.repository == repository
      ensures Held() == if repository != null then repository.mem else []
    {
      this.repository := repository;
      chunks := [];
    }

    method AddChunks(added: seq<Chunk>)
      modifies this, repository
      ensures Held() == old(Held()) + added
    {
      if repository != null {
        repository.AddChunks(added);
        return;
      }
      chunks := chunks + added;
    }

    method Search(lower: string -> string, tenant: string, query: string, limit: int) returns (r: seq<Chunk>)
      ensures Answers(lower, InTenant(Held(), tenant), query, limit, r)
      ensures Finds(lower, InTenant(Held(), tenant), query, limit, r)
    {
      if repository != null {
        r := repository.Search(lower, tenant, query, limit);
        return;
      }
      var normalized := Strip(lower(query));
      var candidates := CandidatesOf(chunks, tenant);
      if normalized == "" {
        AnswersFind(lower, candidates, query, limit, Slice(candidates, limit));
        return Slice(candidates, limit);
      }
      ghost var scores := Scores(lower, Split(normalized), candidates);
      var scored: seq<Scored<Chunk>> := [];
      for i := 0 to |candidates|
        invariant Within(Positive(scores, i), |candidates|) && scored == Carry(candidates, Positive(scores, i))
      {
        var score := CountHits(Split(normalized), lower(candidates[i].content));
        if score > 0 { scored := scored + [Scored(score, candidates[i])]; }
      }
      SortAnswers(lower, candidates, query, limit, scored);
      scored := SortByScore(scored);
      r := Items(Slice(scored, limit));
      AnswersFind(lower, candidates, query, limit, r);
    }
  }
}
