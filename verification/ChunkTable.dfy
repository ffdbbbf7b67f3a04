/**
  Upserting chunks into the persistent table through a session that does not flush before it
  reads: when the commit fails, and what the table holds after any run of uploads.
*/
module ChunkTable {
  import opened Optional
  import opened Ranking
  import opened Ingestion

  datatype Key = Key(tenant: string, source: string, chunkId: string)
  datatype Row = Row(content: string, index: nat)
  type Table = map<Key, Row>

  function KeyOf(c: Chunk): Key {
    Key(c.tenant, c.source, c.chunkId)
  }

  function KeysOf(chunks: seq<Chunk>): set<Key> {
    set c | c in chunks :: KeyOf(c)
  }

  /** One chunk after the other, each inserted or overwriting its row. */
  function Upserted(rows: Table, chunks: seq<Chunk>): Table {
    if chunks == [] then rows
    else
      var c := chunks[|chunks| - 1];
      Upserted(rows, chunks[..|chunks| - 1])[KeyOf(c) := Row(c.content, c.index)]
  }

  /** A key the table lacks occurs twice in the batch. */
  ghost predicate NewTwice(rows: Table, chunks: seq<Chunk>) {
    exists i, j | 0 <= i < j < |chunks| :: KeyOf(chunks[i]) == KeyOf(chunks[j]) && KeyOf(chunks[i]) !in rows
  }

  // ------------------------------------------------------------------ the session

  lemma NewTwiceNext(rows: Table, chunks: seq<Chunk>, c: Chunk)
    ensures NewTwice(rows, chunks + [c])
            <==> NewTwice(rows, chunks) || (KeyOf(c) !in rows && KeyOf(c) in KeysOf(chunks))
  {
    var all := chunks + [c];
    assert forall i | 0 <= i < |chunks| :: all[i] == chunks[i];
    if NewTwice(rows, chunks) {
      var i, j :| 0 <= i < j < |chunks| && KeyOf(chunks[i]) == KeyOf(chunks[j]) && KeyOf(chunks[i]) !in rows;
      assert all[i] == chunks[i] && all[j] == chunks[j];
    }
    if KeyOf(c) !in rows && KeyOf(c) in KeysOf(chunks) {
      var i :| 0 <= i < |chunks| && KeyOf(chunks[i]) == KeyOf(c);
      assert all[i] == chunks[i] && all[|chunks|] == c;
    }
  }

  lemma KeysOfNext(chunks: seq<Chunk>, c: Chunk)
    ensures KeysOf(chunks + [c]) == KeysOf(chunks) + {KeyOf(c)}
  {
    assert forall x :: x in chunks + [c] <==> x in chunks || x == c;
  }

  lemma {:induction false} UpsertedKeys(rows: Table, chunks: seq<Chunk>)
    ensures Upserted(rows, chunks).Keys == rows.Keys + KeysOf(chunks)
  {
    if chunks != [] {
      var init, c := chunks[..|chunks| - 1], chunks[|chunks| - 1];
      UpsertedKeys(rows, init);
      KeysOfNext(init, c);
      assert init + [c] == chunks;
    }
  }

  /** A row no chunk names can as well be written first. */
  lemma {:induction false} UpsertedCommutes(rows: Table, chunks: seq<Chunk>, key: Key, row: Row)
    requires key !in KeysOf(chunks)
    ensures Upserted(rows[key := row], chunks) == Upserted(rows, chunks)[key := row]
  {
    if chunks != [] {
      var init, c := chunks[..|chunks| - 1], chunks[|chunks| - 1];
      KeysOfNext(init, c);
      assert init + [c] == chunks;
      UpsertedCommutes(rows, init, key, row);
    }
  }

  datatype IntegrityError = IntegrityError

  /** The loaded and changed rows, and the rows to insert, after the loop has seen these chunks. */
  ghost predicate Staged(rows: Table, seen: seq<Chunk>, loaded: Table, added: seq<Chunk>) {
    && loaded.Keys <= rows.Keys
    && KeysOf(added) == KeysOf(seen) - rows.Keys
    && Upserted(rows, seen) == Upserted(rows + loaded, added)
    && (NewTwice(rows, seen) <==> NewTwice(map[], added))
  }

  lemma StageLoaded(rows: Table, seen: seq<Chunk>, loaded: Table, added: seq<Chunk>, c: Chunk)
    requires Staged(rows, seen, loaded, added) && KeyOf(c) in rows
    ensures Staged(rows, seen + [c], loaded[KeyOf(c) := Row(c.content, c.index)], added)
  {
    var row := Row(c.content, c.index);
    KeysOfNext(seen, c);
    NewTwiceNext(rows, seen, c);
    UpsertedCommutes(rows + loaded, added, KeyOf(c), row);
    assert (rows + loaded)[KeyOf(c) := row] == rows + loaded[KeyOf(c) := row];
    UpsertedNext(rows, seen, c);
  }

  lemma StageAdded(rows: Table, seen: seq<Chunk>, loaded: Table, added: seq<Chunk>, c: Chunk)
    requires Staged(rows, seen, loaded, added) && KeyOf(c) !in rows
    ensures Staged(rows, seen + [c], loaded, added + [c])
  {
    AddedKeys(rows, seen, added, c);
    UpsertedNext(rows, seen, c);
    UpsertedNext(rows + loaded, added, c);
    NewTwiceNext(rows, seen, c);
    NewTwiceNext(map[], added, c);
  }

  lemma UpsertedNext(rows: Table, chunks: seq<Chunk>, c: Chunk)
    ensures Upserted(rows, chunks + [c]) == Upserted(rows, chunks)[KeyOf(c) := Row(c.content, c.index)]
  {
    assert (chunks + [c])[..|chunks|] == chunks;
  }

  lemma AddedKeys(rows: Table, seen: seq<Chunk>, added: seq<Chunk>, c: Chunk)
    requires KeysOf(added) == KeysOf(seen) - rows.Keys && KeyOf(c) !in rows
    ensures KeysOf(added + [c]) == KeysOf(seen + [c]) - rows.Keys
  {
    KeysOfNext(seen, c);
    KeysOfNext(added, c);
  }

  /** The repository over the database: the unique key is the table's own. */
  class ChunkRepository {
    var rows: Table

    constructor ()
      ensures rows == map[]
    {
      rows := map[];
    }

    /** The batch is one transaction, and it fails exactly on a new key that occurs twice. */
    method AddChunks(chunks: seq<Chunk>) returns (r: Result<(), IntegrityError>)
      modifies this
      ensures r.Err? <==> NewTwice(old(rows), chunks)
      ensures rows == if r.Ok? then Upserted(old(rows), chunks) else old(rows)
    {
      if chunks == [] { return Ok(()); }
      var loaded: Table, added: seq<Chunk> := map[], [];
      assert rows + loaded == rows;
      for i := 0 to |chunks|
        invariant Staged(rows, chunks[..i], loaded, added)
        invariant rows == old(rows)
      {
        var c := chunks[i];
        assert chunks[..i] + [c] == chunks[..i + 1];
        if KeyOf(c) !in rows {
          StageAdded(rows, chunks[..i], loaded, added, c);
          added := added + [c];
        } else {
          StageLoaded(rows, chunks[..i], loaded, added, c);
          loaded := loaded[KeyOf(c) := Row(c.content, c.index)];
        }
      }
      assert chunks[..|chunks|] == chunks;
      r := Commit(loaded, added);
    }

    /** Writes the changed rows and inserts the new ones, all or nothing. */
    method Commit(loaded: Table, added: seq<Chunk>) returns (r: Result<(), IntegrityError>)
      requires loaded.Keys <= rows.Keys && KeysOf(added) !! rows.Keys
      modifies this
      ensures r.Err? <==> NewTwice(map[], added)
      ensures rows == if r.Ok? then Upserted(old(rows) + loaded, added) else old(rows)
    {
      var next := rows + loaded;
      for i := 0 to |added|
        invariant next == Upserted(rows + loaded, added[..i]) && !NewTwice(map[], added[..i])
        invariant rows == old(rows)
      {
        var c := added[i];
        UpsertedKeys(rows + loaded, added[..i]);
        assert added[..i] + [c] == added[..i + 1] && added[..i + 1][..i] == added[..i];
        NewTwiceNext(map[], added[..i], c);
        assert c in added && KeyOf(c) in KeysOf(added);
        if KeyOf(c) in next {
          assert NewTwice(map[], added[..i + 1]);
          var k, l :| 0 <= k < l < i + 1 && KeyOf(added[..i + 1][k]) == KeyOf(added[..i + 1][l]);
          assert KeyOf(added[k]) == KeyOf(added[l]);
          return Err(IntegrityError);
        }
        next := next[KeyOf(c) := Row(c.content, c.index)];
      }
      assert added[..|added|] == added;
      rows := next;
      r := Ok(());
    }
  }

  // ------------------------------------------------------------------ uploads

  /** One text, already cut, of one source. */
  datatype Upload = Upload(tenant: string, source: string, raw: seq<string>)

  function Batch(digest: string -> string, u: Upload): seq<Chunk> {
    ChunksOf(digest, u.tenant, u.source, u.raw)
  }

  function PlaceKey(digest: string -> string, tenant: string, source: string, i: nat): Key {
    Key(tenant, source, ChunkId(digest, source, i))
  }

  /** What ingestion makes never asks for one key twice, so its upsert never fails. */
  lemma UploadCommits(digest: string -> string, u: Upload, rows: Table)
    requires Injective(digest)
    ensures !NewTwice(rows, Batch(digest, u))
  {
    var chunks := Batch(digest, u);
    forall i, j | 0 <= i < j < |chunks| ensures KeyOf(chunks[i]) != KeyOf(chunks[j]) {
      if KeyOf(chunks[i]) == KeyOf(chunks[j]) { ChunkIdInjective(digest, u.source, i, u.source, j); }
    }
  }

  ghost predicate HasAll(digest: string -> string, rows: Table, tenant: string, source: string, contents: seq<string>) {
    forall i | 0 <= i < |contents| ::
      var key := PlaceKey(digest, tenant, source, i); key in rows && rows[key] == Row(contents[i], i)
  }

  ghost predicate HasNoOther(digest: string -> string, rows: Table, tenant: string, source: string, n: nat) {
    forall key | key in rows && key.tenant == tenant && key.source == source ::
      exists i | 0 <= i < n :: key == PlaceKey(digest, tenant, source, i)
  }

  /** The table holds these contents for the source, at these places, and no other row of it. */
  ghost predicate Holds(digest: string -> string, rows: Table, tenant: string, source: string, contents: seq<string>) {
    HasAll(digest, rows, tenant, source, contents) && HasNoOther(digest, rows, tenant, source, |contents|)
  }

  /** A new text over an old one: its own pieces, then what is left of the old ones. */
  function Over(raw: seq<string>, before: seq<string>): seq<string> {
    if |raw| < |before| then raw + before[|raw|..] else raw
  }

  lemma {:induction false} UpsertHolds(digest: string -> string, rows: Table, tenant: string, source: string,
                                       raw: seq<string>, before: seq<string>)
    requires Injective(digest) && Holds(digest, rows, tenant, source, before)
    ensures Holds(digest, Upserted(rows, ChunksOf(digest, tenant, source, raw)), tenant, source, Over(raw, before))
  {
    var chunks := ChunksOf(digest, tenant, source, raw);
    if raw != [] {
      var n := |raw| - 1;
      UpsertHolds(digest, rows, tenant, source, raw[..n], before);
      UpsertedLast(digest, rows, tenant, source, raw);
      OverNext(raw, before);
      WriteHolds(digest, Upserted(rows, ChunksOf(digest, tenant, source, raw[..n])), tenant, source,
                 Over(raw[..n], before), Over(raw, before), n);
    } else {
      assert chunks == [] && Over(raw, before) == before;
    }
  }

  /** The last chunk of a text is written last, to its own place. */
  lemma UpsertedLast(digest: string -> string, rows: Table, tenant: string, source: string, raw: seq<string>)
    requires raw != []
    ensures var n := |raw| - 1;
      Upserted(rows, ChunksOf(digest, tenant, source, raw))
      == Upserted(rows, ChunksOf(digest, tenant, source, raw[..n]))[PlaceKey(digest, tenant, source,
          n) := Row(raw[n], n)]
  {
    var n, chunks := |raw| - 1, ChunksOf(digest, tenant, source, raw);
    assert chunks[..n] == ChunksOf(digest, tenant, source, raw[..n]);
  }

  lemma OverNext(raw: seq<string>, before: seq<string>)
    requires raw != []
    ensures var n, was, now := |raw| - 1, Over(raw[..|raw| - 1], before), Over(raw, before);
      && |now| == (if |was| > n then |was| else n + 1) && now[n] == raw[n]
      && forall i | 0 <= i < |now| && i != n :: i < |was| && now[i] == was[i]
  {
  }

  /** Writing one place of a source. */
  lemma WriteHolds(digest: string -> string, rows: Table, tenant: string, source: string, was: seq<string>,
                   now: seq<string>, n: nat)
    requires Injective(digest) && n < |now| && |now| == (if |was| > n then |was| else n + 1)
    requires forall i | 0 <= i < |now| && i != n :: i < |was| && now[i] == was[i]
    requires Holds(digest, rows, tenant, source, was)
    ensures Holds(digest, rows[PlaceKey(digest, tenant, source, n) := Row(now[n], n)], tenant, source, now)
  {
    var key := PlaceKey(digest, tenant, source, n);
    var after := rows[key := Row(now[n], n)];
    forall i | 0 <= i < |now|
      ensures var k := PlaceKey(digest, tenant, source, i); k in after && after[k] == Row(now[i], i)
    {
      if i != n {
        assert now[i] == was[i];
        if PlaceKey(digest, tenant, source, i) == key { ChunkIdInjective(digest, source, i, source, n); }
      }
    }
    assert HasNoOther(digest, after, tenant, source, |now|);
  }

  /** Rows of other sources and tenants stay as they are. */
  lemma {:induction false} UpsertElsewhere(digest: string -> string, rows: Table, u: Upload, tenant: string,
                                           source: string,
                                           contents: seq<string>)
    requires (u.tenant, u.source) != (tenant, source) && Holds(digest, rows, tenant, source, contents)
    ensures Holds(digest, Upserted(rows, Batch(digest, u)), tenant, source, contents)
    decreases |u.raw|
  {
    if u.raw != [] {
      var n := |u.raw| - 1;
      var init := u.(raw := u.raw[..n]);
      UpsertElsewhere(digest, rows, init, tenant, source, contents);
      assert Batch(digest, u)[..n] == Batch(digest, init);
    }
  }

  /** The table after these uploads. */
  function Uploaded(digest: string -> string, uploads: seq<Upload>): Table {
    if uploads == [] then map[]
    else Upserted(Uploaded(digest, uploads[..|uploads| - 1]), Batch(digest, uploads[|uploads| - 1]))
  }

  /** What they leave of one source: every text laid over the one before. */
  function Layers(uploads: seq<Upload>, tenant: string, source: string): seq<string> {
    if uploads == [] then []
    else
      var below, u := Layers(uploads[..|uploads| - 1], tenant, source), uploads[|uploads| - 1];
      if u.tenant == tenant && u.source == source then Over(u.raw, below) else below
  }

  /** After any uploads to any sources, the table holds of each source exactly its layers. */
  lemma {:induction false} TableHoldsTheLayers(digest: string -> string, uploads: seq<Upload>, tenant: string,
                                               source: string)
    requires Injective(digest)
    ensures Holds(digest, Uploaded(digest, uploads), tenant, source, Layers(uploads, tenant, source))
  {
    if uploads != [] {
      var init, u := uploads[..|uploads| - 1], uploads[|uploads| - 1];
      TableHoldsTheLayers(digest, init, tenant, source);
      if u.tenant == tenant && u.source == source {
        UpsertHolds(digest, Uploaded(digest, init), tenant, source, u.raw, Layers(init, tenant, source));
      } else {
        UpsertElsewhere(digest, Uploaded(digest, init), u, tenant, source, Layers(init, tenant, source));
      }
    }
  }

  ghost predicate LongerThan(uploads: seq<Upload>, tenant: string, source: string, n: nat) {
    exists u | u in uploads :: u.tenant == tenant && u.source == source && |u.raw| > n
  }

  lemma {:induction false} LayersLength(uploads: seq<Upload>, tenant: string, source: string, n: nat)
    ensures |Layers(uploads, tenant, source)| > n <==> LongerThan(uploads, tenant, source, n)
  {
    if uploads != [] {
      var init, u := uploads[..|uploads| - 1], uploads[|uploads| - 1];
      LayersLength(init, tenant, source, n);
      assert forall v :: v in uploads <==> v in init || v == u;
    }
  }

  /** The last text is all the table holds of its source exactly when no earlier one had more pieces. */
  lemma LastUploadReplacesIff(uploads: seq<Upload>, u: Upload)
    ensures Layers(uploads + [u], u.tenant, u.source) == u.raw <==> !LongerThan(uploads, u.tenant, u.source, |u.raw|)
  {
    LayersLength(uploads, u.tenant, u.source, |u.raw|);
    assert (uploads + [u])[..|uploads|] == uploads;
  }

  /** The layers of all the sources are all there is in the table. */
  lemma LayersAreTheTable(digest: string -> string, a: seq<Upload>, b: seq<Upload>)
    requires Injective(digest)
    requires forall tenant, source :: Layers(a, tenant, source) == Layers(b, tenant, source)
    ensures Uploaded(digest, a) == Uploaded(digest, b)
  {
    SameRows(digest, a, b);
    SameRows(digest, b, a);
  }

  lemma SameRows(digest: string -> string, a: seq<Upload>, b: seq<Upload>)
    requires Injective(digest)
    requires forall tenant, source :: Layers(a, tenant, source) == Layers(b, tenant, source)
    ensures forall key | key in Uploaded(digest, a) ::
              key in Uploaded(digest, b) && Uploaded(digest, a)[key] == Uploaded(digest, b)[key]
  {
    forall key | key in Uploaded(digest, a)
      ensures key in Uploaded(digest, b) && Uploaded(digest, a)[key] == Uploaded(digest, b)[key]
    {
      TableHoldsTheLayers(digest, a, key.tenant, key.source);
      TableHoldsTheLayers(digest, b, key.tenant, key.source);
    }
  }

  /** Uploading the same text again changes nothing. */
  lemma UploadTwice(digest: string -> string, uploads: seq<Upload>, u: Upload)
    requires Injective(digest)
    ensures Uploaded(digest, uploads + [u] + [u]) == Uploaded(digest, uploads + [u])
  {
    assert (uploads + [u])[..|uploads|] == uploads;
    assert (uploads + [u] + [u])[..|uploads| + 1] == uploads + [u];
    LayersAreTheTable(digest, uploads + [u] + [u], uploads + [u]);
  }

  /** A shorter text over a longer one leaves exactly the longer one's tail, from the first piece not overwritten. */
  lemma ShorterTextLeavesTheTail(longer: string, shorter: string, size: nat)
    requires size > 0 && |Pieces(shorter, size)| < |Pieces(longer, size)|
    ensures |Pieces(shorter, size)| * size <= |longer|
    ensures Flatten(Over(Pieces(shorter, size), Pieces(longer, size)))
              == shorter + longer[|Pieces(shorter, size)| * size..]
  {
    var p, q := Pieces(shorter, size), Pieces(longer, size);
    var n := |p|;
    TailText(longer, size, n);
    FlattenPieces(shorter, size);
    FlattenConcat(p, q[n..]);
  }

  lemma TailText(text: string, size: nat, n: nat)
    requires size > 0 && n < |Pieces(text, size)|
    ensures n * size <= |text| && Flatten(Pieces(text, size)[n..]) == text[n * size..]
  {
    PiecesFrom(text, size, n);
    FlattenPieces(text[n * size..], size);
  }

  lemma FlattenPieces(text: string, size: nat)
    requires size > 0
    ensures Flatten(Pieces(text, size)) == text
  {
    PiecesCoverText(text, size);
  }

  lemma {:induction false} FlattenConcat(a: seq<string>, b: seq<string>)
    ensures Flatten(a + b) == Flatten(a) + Flatten(b)
  {
    if a == [] {
      assert a + b == b;
    } else {
      assert (a + b)[1..] == a[1..] + b;
      FlattenConcat(a[1..], b);
    }
  }

  // ------------------------------------------ the list kept without a database

  /** The chunks an in-memory repository holds after these uploads: it only appends. */
  function Extended(digest: string -> string, uploads: seq<Upload>): seq<Chunk> {
    if uploads == [] then []
    else Extended(digest, uploads[..|uploads| - 1]) + Batch(digest, uploads[|uploads| - 1])
  }

  lemma {:induction false} UpsertedConcat(rows: Table, a: seq<Chunk>, b: seq<Chunk>)
    ensures Upserted(rows, a + b) == Upserted(Upserted(rows, a), b)
  {
    if b == [] {
      assert a + b == a;
    } else {
      var init, c := b[..|b| - 1], b[|b| - 1];
      UpsertedConcat(rows, a, init);
      UpsertedNext(rows, a + init, c);
      UpsertedNext(Upserted(rows, a), init, c);
      assert a + b == (a + init) + [c] && b == init + [c];
    }
  }

  /** Both forms are given the same chunks. */
  lemma {:induction false} TableOfExtended(digest: string -> string, uploads: seq<Upload>)
    ensures Uploaded(digest, uploads) == Upserted(map[], Extended(digest, uploads))
  {
    if uploads != [] {
      var init, u := uploads[..|uploads| - 1], uploads[|uploads| - 1];
      TableOfExtended(digest, init);
      UpsertedConcat(map[], Extended(digest, init), Batch(digest, u));
    }
  }

  lemma {:induction false} KeysCount(chunks: seq<Chunk>)
    ensures |KeysOf(chunks)| <= |chunks|
    ensures |KeysOf(chunks)| == |chunks| <==> !NewTwice(map[], chunks)
  {
    if chunks != [] {
      var init, c := chunks[..|chunks| - 1], chunks[|chunks| - 1];
      assert init + [c] == chunks;
      KeysCount(init);
      KeysOfNext(init, c);
      NewTwiceNext(map[], init, c);
    }
  }

  function RowOf(c: Chunk): Row {
    Row(c.content, c.index)
  }

  /** The list holds each row of the table, with its contents, exactly once, and nothing else. */
  ghost predicate Enumerates(chunks: seq<Chunk>, rows: Table) {
    && |chunks| == |rows|
    && (forall i | 0 <= i < |chunks| :: KeyOf(chunks[i]) in rows && rows[KeyOf(chunks[i])] == RowOf(chunks[i]))
    && (forall key | key in rows :: exists i | 0 <= i < |chunks| :: KeyOf(chunks[i]) == key)
  }

  lemma {:induction false} UpsertedAt(chunks: seq<Chunk>, i: nat)
    requires i < |chunks| && !NewTwice(map[], chunks)
    ensures var rows := Upserted(map[], chunks); KeyOf(chunks[i]) in rows && rows[KeyOf(chunks[i])] == RowOf(chunks[i])
  {
    var init, c := chunks[..|chunks| - 1], chunks[|chunks| - 1];
    assert init + [c] == chunks;
    NewTwiceNext(map[], init, c);
    if i < |init| {
      UpsertedAt(init, i);
      assert KeyOf(chunks[i]) != KeyOf(c);
    }
  }

  /** The list is the table exactly when no key occurs in it twice. */
  lemma ListEnumeratesTableIff(chunks: seq<Chunk>)
    ensures Enumerates(chunks, Upserted(map[], chunks)) <==> !NewTwice(map[], chunks)
  {
    UpsertedKeys(map[], chunks);
    KeysCount(chunks);
    var rows := Upserted(map[], chunks);
    assert |rows| == |rows.Keys| == |KeysOf(chunks)|;
    if !NewTwice(map[], chunks) {
      forall i | 0 <= i < |chunks| ensures KeyOf(chunks[i]) in rows && rows[KeyOf(chunks[i])] == RowOf(chunks[i]) {
        UpsertedAt(chunks, i);
      }
      forall key | key in rows ensures exists i | 0 <= i < |chunks| :: KeyOf(chunks[i]) == key {
        assert key in KeysOf(chunks);
        var c :| c in chunks && KeyOf(c) == key;
      }
    }
  }

  /** Some source was given two texts, neither of them empty. */
  ghost predicate Resent(uploads: seq<Upload>) {
    exists i, j | 0 <= i < j < |uploads| :: SameSource(uploads[i], uploads[j])
  }

  ghost predicate SameSource(u: Upload, v: Upload) {
    u.tenant == v.tenant && u.source == v.source && u.raw != [] && v.raw != []
  }

  lemma ResentNext(uploads: seq<Upload>, u: Upload)
    ensures Resent(uploads + [u]) <==> Resent(uploads) || exists v | v in uploads :: SameSource(v, u)
  {
    var all := uploads + [u];
    assert forall i | 0 <= i < |uploads| :: all[i] == uploads[i];
    if Resent(uploads) {
      var i, j :| 0 <= i < j < |uploads| && SameSource(uploads[i], uploads[j]);
      assert SameSource(all[i], all[j]);
    }
    if v :| v in uploads && SameSource(v, u) {
      var i :| 0 <= i < |uploads| && uploads[i] == v;
      assert SameSource(all[i], all[|uploads|]);
    }
  }

  ghost predicate Clash(a: seq<Chunk>, b: seq<Chunk>) {
    exists key | key in KeysOf(a) :: key in KeysOf(b)
  }

  lemma KeysOfConcat(a: seq<Chunk>, b: seq<Chunk>)
    ensures KeysOf(a + b) == KeysOf(a) + KeysOf(b)
  {
    assert forall x :: x in a + b <==> x in a || x in b;
  }

  lemma ClashNext(a: seq<Chunk>, b: seq<Chunk>, c: Chunk)
    ensures Clash(a, b + [c]) <==> Clash(a, b) || KeyOf(c) in KeysOf(a)
  {
    KeysOfNext(b, c);
  }

  lemma {:induction false} NewTwiceConcat(a: seq<Chunk>, b: seq<Chunk>)
    ensures NewTwice(map[], a + b) <==> NewTwice(map[], a) || NewTwice(map[], b) || Clash(a, b)
  {
    if b == [] {
      assert a + b == a;
      assert KeysOf(b) == {};
    } else {
      var init, c := b[..|b| - 1], b[|b| - 1];
      assert a + b == (a + init) + [c] && b == init + [c];
      NewTwiceConcat(a, init);
      NewTwiceNext(map[], a + init, c);
      NewTwiceNext(map[], init, c);
      ClashNext(a, init, c);
      KeysOfConcat(a, init);
    }
  }

  lemma BatchKeys(digest: string -> string, u: Upload, key: Key)
    ensures key in KeysOf(Batch(digest, u)) <==>
            exists i | 0 <= i < |u.raw| :: key == PlaceKey(digest, u.tenant, u.source, i)
  {
    var chunks := Batch(digest, u);
    if key in KeysOf(chunks) {
      var i :| 0 <= i < |chunks| && KeyOf(chunks[i]) == key;
      assert key == PlaceKey(digest, u.tenant, u.source, i);
    }
    if i :| 0 <= i < |u.raw| && key == PlaceKey(digest, u.tenant, u.source, i) {
      assert chunks[i] in chunks && KeyOf(chunks[i]) == key;
    }
  }

  /** Two texts of one source share the name of their first piece. */
  lemma BatchesClash(digest: string -> string, u: Upload, v: Upload)
    ensures Clash(Batch(digest, v), Batch(digest, u)) <==> SameSource(v, u)
  {
    if SameSource(v, u) {
      var key := PlaceKey(digest, u.tenant, u.source, 0);
      BatchKeys(digest, u, key);
      BatchKeys(digest, v, key);
    }
    if Clash(Batch(digest, v), Batch(digest, u)) {
      var key :| key in KeysOf(Batch(digest, v)) && key in KeysOf(Batch(digest, u));
      BatchKeys(digest, u, key);
      BatchKeys(digest, v, key);
    }
  }

  lemma ClashConcat(a: seq<Chunk>, b: seq<Chunk>, c: seq<Chunk>)
    ensures Clash(a + b, c) <==> Clash(a, c) || Clash(b, c)
  {
    KeysOfConcat(a, b);
  }

  lemma {:induction false} ExtendedKeys(digest: string -> string, uploads: seq<Upload>, u: Upload)
    ensures Clash(Extended(digest, uploads), Batch(digest, u)) <==> exists v | v in uploads :: SameSource(v, u)
  {
    if uploads != [] {
      var init, v := uploads[..|uploads| - 1], uploads[|uploads| - 1];
      ExtendedKeys(digest, init, u);
      ClashConcat(Extended(digest, init), Batch(digest, v), Batch(digest, u));
      BatchesClash(digest, u, v);
      assert forall w :: w in uploads <==> w in init || w == v;
    }
  }

  lemma {:induction false} RepeatsIffResent(digest: string -> string, uploads: seq<Upload>)
    requires Injective(digest)
    ensures NewTwice(map[], Extended(digest, uploads)) <==> Resent(uploads)
  {
    if uploads != [] {
      var init, u := uploads[..|uploads| - 1], uploads[|uploads| - 1];
      RepeatsIffResent(digest, init);
      NewTwiceConcat(Extended(digest, init), Batch(digest, u));
      UploadCommits(digest, u, map[]);
      ExtendedKeys(digest, init, u);
      ResentNext(init, u);
      assert init + [u] == uploads;
    }
  }

  /** Keeping a list instead of the table shows as soon as a source is sent again, and not before. */
  lemma ListMatchesTableIffNotResent(digest: string -> string, uploads: seq<Upload>)
    requires Injective(digest)
    ensures Enumerates(Extended(digest, uploads), Uploaded(digest, uploads)) <==> !Resent(uploads)
  {
    TableOfExtended(digest, uploads);
    ListEnumeratesTableIff(Extended(digest, uploads));
    RepeatsIffResent(digest, uploads);
  }
}
