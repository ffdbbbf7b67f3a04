/**
  Cutting a text into chunks and naming them: the cut loses nothing and the names never clash.
*/
module Ingestion {
  import opened Optional
  import opened Ranking
  import Keys

  // ---------------------------------------------------------------- chunk names

  function Digit(d: nat): char
    requires d < 10
  {
    "0123456789"[d]
  }

  /** `str(n)`. */
  function Decimal(n: nat): (s: string)
    ensures s != "" && forall i | 0 <= i < |s| :: '0' <= s[i] <= '9'
    ensures |s| == 1 <==> n < 10
  {
    if n < 10 then [Digit(n)] else Decimal(n / 10) + [Digit(n % 10)]
  }

  lemma {:induction false} DecimalInjective(a: nat, b: nat)
    requires Decimal(a) == Decimal(b)
    ensures a == b
  {
    var s := Decimal(a);
    assert s[|s| - 1] == Digit(a % 10) == Digit(b % 10);
    if a >= 10 {
      assert s[..|s| - 1] == Decimal(a / 10) == Decimal(b / 10);
      DecimalInjective(a / 10, b / 10);
    }
  }

  ghost predicate Injective(f: string -> string) {
    forall a, b :: f(a) == f(b) ==> a == b
  }

  /** `digest` is the hex MD5 of the encoded text. */
  function ChunkId(digest: string -> string, source: string, index: nat): string {
    digest(Keys.Join(source, ':', Decimal(index)))
  }

  /** A chunk's name determines its source and place, whatever characters the source id has. */
  lemma ChunkIdInjective(digest: string -> string, s: string, i: nat, t: string, j: nat)
    requires Injective(digest) && ChunkId(digest, s, i) == ChunkId(digest, t, j)
    ensures s == t && i == j
  {
    Keys.JoinInjectiveRight(s, Decimal(i), t, Decimal(j), ':');
    DecimalInjective(i, j);
  }

  // -------------------------------------------------------------------- cutting

  /** The text in pieces of the given size, the last one possibly shorter. */
  function Pieces(text: string, size: nat): seq<string>
    requires size > 0
    decreases |text|
  {
    if text == "" then [] else if |text| <= size then [text] else [text[..size]] + Pieces(text[size..], size)
  }

  function Flatten(raw: seq<string>): string {
    if raw == [] then "" else raw[0] + Flatten(raw[1..])
  }

  /** The pieces put together are the text, and none but the last is short. */
  lemma {:induction false} PiecesCoverText(text: string, size: nat)
    requires size > 0
    ensures var p := Pieces(text, size);
      && Flatten(p) == text
      && (forall k | 0 <= k < |p| :: 0 < |p[k]| <= size)
      && (forall k | 0 <= k < |p| - 1 :: |p[k]| == size)
    decreases |text|
  {
    if |text| > size {
      PiecesCoverText(text[size..], size);
      var p := Pieces(text, size);
      assert p[1..] == Pieces(text[size..], size);
      assert text == text[..size] + text[size..];
    } else if text != "" {
      assert Flatten([text]) == text + Flatten([]);
    }
  }

  /** There are ceil(length / size) of them. */
  lemma {:induction false} PiecesCount(text: string, size: nat)
    requires size > 0
    ensures (|Pieces(text, size)| - 1) * size < |text| <= |Pieces(text, size)| * size
    decreases |text|
  {
    if |text| > size {
      PiecesCount(text[size..], size);
      var n := |Pieces(text[size..], size)|;
      assert (n - 1) * size + size == n * size && n * size + size == (n + 1) * size;
    } else if text == "" {
      assert (0 - 1) * size < 0;
    }
  }

  /** The pieces from the n-th on are the pieces of the text from there on. */
  lemma {:induction false} PiecesFrom(text: string, size: nat, n: nat)
    requires size > 0 && n < |Pieces(text, size)|
    ensures n * size <= |text| && Pieces(text, size)[n..] == Pieces(text[n * size..], size)
    decreases n
  {
    if n == 0 {
      assert text[0..] == text;
    } else {
      PiecesFrom(text[size..], size, n - 1);
      assert (n - 1) * size + size == n * size;
      assert text[size..][(n - 1) * size..] == text[n * size..];
    }
  }

  /** `text[idx:]`. */
  function From(text: string, idx: nat): string {
    if idx <= |text| then text[idx..] else ""
  }

  lemma PiecesStep(text: string, idx: nat, size: nat)
    requires size > 0 && idx < |text|
    ensures Pieces(From(text, idx), size)
         == [From(text, idx)[..if idx + size < |text| then size else |text| - idx]]
            + Pieces(From(text, idx + size), size)
  {
    var rest := From(text, idx);
    if idx + size < |text| {
      assert rest[size..] == From(text, idx + size);
    } else {
      assert rest[..|text| - idx] == rest && From(text, idx + size) == "";
    }
  }

  /** The chunks made of these pieces. */
  function ChunksOf(digest: string -> string, tenant: string, source: string, raw: seq<string>): seq<Chunk> {
    seq(|raw|, i requires 0 <= i < |raw| => Chunk(tenant, source, ChunkId(digest, source, i), raw[i], i))
  }

  /** The pieces of a text; with no splitter a negative size cuts none. */
  function Cut(splitter: Option<string -> seq<string>>, text: string, size: int): seq<string> {
    if splitter.Some? then splitter.value(text) else if size > 0 then Pieces(text, size) else []
  }

  /** The fallback keeps the whole text exactly when the size is positive or there is no text. */
  lemma CutKeepsTextIff(text: string, size: int)
    ensures Flatten(Cut(None, text, size)) == text <==> size > 0 || text == ""
  {
    if size > 0 { PiecesCoverText(text, size); }
  }

  datatype ValueError = ValueError

  /** The sentence splitter is a library that may be missing. */
  class IngestionPipeline {
    const splitter: Option<string -> seq<string>>

    constructor (splitter: Option<string -> seq<string>>)
      ensures this.splitter == splitter
    {
      this.splitter := splitter;
    }

    method IngestText(digest: string -> string, tenant: string, source: string, text: string, size: int)
      returns (r: Result<seq<Chunk>, ValueError>)
      ensures r.Err? <==> splitter.None? && size == 0
      ensures r.Ok? ==> r.value == ChunksOf(digest, tenant, source, Cut(splitter, text, size))
    {
      var raw: seq<string> := [];
      if splitter.Some? {
        var split := splitter.value(text);
        for i := 0 to |split|
          invariant raw == split[..i]
        {
          raw := raw + [split[i]];
        }
      } else if size == 0 {
        return Err(ValueError);
      } else {
        raw := CutEvenly(text, size);
      }
      var chunks: seq<Chunk> := [];
      for i := 0 to |raw|
        invariant chunks == ChunksOf(digest, tenant, source, raw)[..i]
      {
        chunks := chunks + [Chunk(tenant, source, ChunkId(digest, source, i), raw[i], i)];
      }
      r := Ok(chunks);
    }

    /** `range(0, len(text), size)` is empty when the size is negative. */
    static method CutEvenly(text: string, size: int) returns (raw: seq<string>)
      requires size != 0
      ensures raw == Cut(None, text, size)
    {
      raw := [];
      var idx := 0;
      while size > 0 && idx < |text|
        invariant 0 <= idx && (size < 0 ==> raw == [])
        invariant size > 0 ==> Pieces(text, size) == raw + Pieces(From(text, idx), size)
      {
        PiecesStep(text, idx, size);
        raw := raw + [From(text, idx)[..if idx + size < |text| then size else |text| - idx]];
        idx := idx + size;
      }
    }
  }
}
