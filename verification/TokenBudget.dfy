/** The token budget, the summarizer, and what they leave of a text. */
module TokenBudget {
  import opened Words

  function Max(a: int, b: int): int {
    if a > b then a else b
  }

  /** Python's `xs[:n]`: a negative n counts from the end. */
  function Slice<T>(xs: seq<T>, n: int): seq<T> {
    if n >= |xs| then xs
    else if n >= 0 then xs[..n]
    else if -n >= |xs| then []
    else xs[..|xs| + n]
  }

  /** What is kept is the front: up to n elements, or all but the last -n. */
  lemma SliceKeepsFront<T>(xs: seq<T>, n: int)
    ensures Slice(xs, n) <= xs
    ensures n >= 0 ==> |Slice(xs, n)| == if |xs| < n then |xs| else n
    ensures n < 0 ==> |Slice(xs, n)| == if |xs| + n > 0 then |xs| + n else 0
  {
  }

  function EstimateTokens(text: string): nat {
    if text == "" then 0 else Max(1, |Split(text)|)
  }

  function Truncate(text: string, remaining: int): string {
    if EstimateTokens(text) <= remaining then text
    else Join(Slice(Split(text), Max(remaining, 1)))
  }

  function Summarize(text: string, maxWords: int): string {
    if |Split(text)| <= maxWords then text
    else Join(Slice(Split(text), maxWords)) + " ..."
  }

  /** A text counts its words; one of nothing but whitespace counts as one, and no text as none. */
  lemma EstimateCounts(text: string)
    ensures EstimateTokens("") == 0
    ensures text != "" && Strip(text) == "" ==> EstimateTokens(text) == 1
    ensures Strip(text) != "" ==> EstimateTokens(text) == |Split(text)| > 0
  {
    NoWordsIff(text);
  }

  /** A text within the budget stays as it is; any other becomes its first words with single spaces. */
  lemma TruncateLeavesOrCuts(text: string, remaining: int)
    ensures EstimateTokens(text) <= remaining ==> Truncate(text, remaining) == text
    ensures EstimateTokens(text) > remaining ==>
              exists n: nat | n <= |Split(text)| ::
                && Truncate(text, remaining) == Join(Split(text)[..n])
                && n == if |Split(text)| < Max(remaining, 1) then |Split(text)| else Max(remaining, 1)
  {
    SliceKeepsFront(Split(text), Max(remaining, 1));
    var kept := Slice(Split(text), Max(remaining, 1));
    assert kept == Split(text)[..|kept|];
  }

  /** The same for a summary, which ends in a mark when it was cut. */
  lemma SummarizeLeavesOrCuts(text: string, maxWords: int)
    ensures |Split(text)| <= maxWords ==> Summarize(text, maxWords) == text
    ensures 0 <= maxWords < |Split(text)| ==> Summarize(text, maxWords) == Join(Split(text)[..maxWords]) + " ..."
  {
    SliceKeepsFront(Split(text), maxWords);
  }

  /** Truncation keeps a prefix of the words, and exactly as many as the budget allows. */
  lemma TruncateKeepsPrefix(text: string, remaining: int)
    ensures Split(Truncate(text, remaining))
         == if EstimateTokens(text) <= remaining then Split(text) else Slice(Split(text), Max(remaining, 1))
  {
    var ws := Split(text);
    if EstimateTokens(text) > remaining {
      var kept := Slice(ws, Max(remaining, 1));
      assert kept == ws[..|kept|];
      AllWordsTake(ws, |kept|);
      SplitOfJoin(kept);
    }
  }

  /** One token is always let through; beyond that the budget is respected. */
  lemma TruncateFits(text: string, remaining: int)
    ensures EstimateTokens(Truncate(text, remaining)) <= Max(remaining, 1)
  {
    TruncateKeepsPrefix(text, remaining);
  }

  lemma TruncateIdempotent(text: string, remaining: int)
    ensures Truncate(Truncate(text, remaining), remaining) == Truncate(text, remaining)
  {
    var once := Truncate(text, remaining);
    TruncateKeepsPrefix(text, remaining);
    if EstimateTokens(once) > remaining {
      var kept := Slice(Split(text), Max(remaining, 1));
      assert EstimateTokens(text) > remaining && Split(once) == kept;
      assert Slice(kept, Max(remaining, 1)) == kept;
    }
  }

  lemma EllipsisWord()
    ensures Split(" ...") == ["..."] && IsWord("...")
  {
    assert IsWord("...");
    SplitWord("...", "");
    assert "..." + "" == "...";
    SplitSkips(' ', "...");
    assert [' '] + "..." == " ...";
  }

  /** A summary keeps a prefix of the words and says so with one more. */
  lemma SummarizeKeepsPrefix(text: string, maxWords: int)
    ensures Split(Summarize(text, maxWords))
         == if |Split(text)| <= maxWords then Split(text) else Slice(Split(text), maxWords) + ["..."]
  {
    var ws := Split(text);
    if |ws| > maxWords {
      var kept := Slice(ws, maxWords);
      assert kept == ws[..|kept|];
      AllWordsTake(ws, |kept|);
      SplitOfJoin(kept);
      EllipsisWord();
      SplitAtSpace(Join(kept), ' ', "...");
      assert Join(kept) + [' '] + "..." == Join(kept) + " ...";
    }
  }

  lemma SummarizeTwice(text: string, maxWords: int)
    requires maxWords >= -1
    ensures Summarize(Summarize(text, maxWords), maxWords) == Summarize(text, maxWords)
  {
    SummarizeKeepsPrefix(text, maxWords);
    var kept := Slice(Split(text), maxWords);
    if |Split(text)| > maxWords {
      assert Slice(kept + ["..."], maxWords) == kept;
    }
  }

  /** Summarizing twice is summarizing once for every text, if and only if the limit is not below -1. */
  lemma SummarizeIdempotentIff(maxWords: int)
    ensures (forall text :: Summarize(Summarize(text, maxWords), maxWords) == Summarize(text, maxWords))
            <==> maxWords >= -1
  {
    if maxWords >= -1 {
      forall text ensures Summarize(Summarize(text, maxWords), maxWords) == Summarize(text, maxWords) {
        SummarizeTwice(text, maxWords);
      }
    } else {
      var ws := seq(1 - maxWords, _ => "a");
      assert AllWords(ws);
      SplitOfJoin(ws);
      var text := Join(ws);
      SummarizeKeepsPrefix(text, maxWords);
      var once := Summarize(text, maxWords);
      assert Slice(ws, maxWords) == ["a"];
      SummarizeKeepsPrefix(once, maxWords);
      assert |Split(once)| == 2 && |Split(Summarize(once, maxWords))| != 2;
    }
  }
}
