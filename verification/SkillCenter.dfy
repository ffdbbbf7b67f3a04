/**
  Skill files behind a cache: exactly when a center answers loads as a table of skills would,
  and the listing of the latest version of every skill.
*/
module SkillCenter {
  import opened Optional
  import opened Versions
  import opened NamedVersions
  import opened Dicts
  import Keys

  datatype Skill = Skill(id: string, version: string, name: string, template: string, config: string)
  datatype Ident = Ident(id: string, version: string)

  function IdentOf(s: Skill): Ident {
    Ident(s.id, s.version)
  }

  function CacheKey(p: Ident): string {
    Keys.Join(p.id, ':', p.version)
  }

  function FileName(p: Ident): string {
    Keys.Join(p.id, '_', p.version) + ".json"
  }

  // ------------------------------------------------------------- runs of calls

  /** The directory, and the cache of one process. */
  datatype State = State(files: map<string, Skill>, cache: map<string, Skill>)

  datatype Op = Save(skill: Skill) | Load(ident: Ident) | Restart

  datatype FileNotFound = FileNotFound
  datatype Answer = Done | Loaded(result: Result<Skill, FileNotFound>)

  function Next(s: State, op: Op): State {
    match op
    case Save(skill) =>
      State(s.files[FileName(IdentOf(skill)) := skill], s.cache[CacheKey(IdentOf(skill)) := skill])
    case Load(p) =>
      if CacheKey(p) !in s.cache && FileName(p) in s.files
          then s.(cache := s.cache[CacheKey(p) := s.files[FileName(p)]]) else s
    case Restart => s.(cache := map[])
  }

  function AnswerOf(s: State, op: Op): Answer {
    match op
    case Save(_) => Done
    case Restart => Done
    case Load(p) =>
      if CacheKey(p) in s.cache then Loaded(Ok(s.cache[CacheKey(p)]))
      else if FileName(p) in s.files then Loaded(Ok(s.files[FileName(p)]))
      else Loaded(Err(FileNotFound))
  }

  function Run(ops: seq<Op>): State {
    if ops == [] then State(map[], map[]) else Next(Run(ops[..|ops| - 1]), ops[|ops| - 1])
  }

  function Named(op: Op): set<Ident> {
    match op
    case Save(skill) => {IdentOf(skill)}
    case Load(p) => {p}
    case Restart => {}
  }

  ghost predicate Names(ops: seq<Op>, idents: set<Ident>) {
    forall op | op in ops :: Named(op) <= idents
  }

  /** The skill saved last under this identity. */
  function LastSaved(ops: seq<Op>, p: Ident): Option<Skill> {
    if ops == [] then None
    else
      var op := ops[|ops| - 1];
      if op.Save? && IdentOf(op.skill) == p then Some(op.skill) else LastSaved(ops[..|ops| - 1], p)
  }

  /** What a load should answer. */
  function Expected(saved: Option<Skill>): Answer {
    Loaded(if saved.None? then Err(FileNotFound) else Ok(saved.value))
  }

  /** Every load after every run over these identities answers the skill saved last under its own. */
  ghost predicate Faithful(idents: set<Ident>) {
    forall ops, p | Names(ops, idents) && p in idents :: AnswerOf(Run(ops), Load(p)) == Expected(LastSaved(ops, p))
  }

  /** No two of the identities share a cache key or a file. */
  ghost predicate Clean(idents: set<Ident>) {
    forall p, q | p in idents && q in idents && p != q :: CacheKey(p) != CacheKey(q) && FileName(p) != FileName(q)
  }

  ghost predicate Coherent(s: State, ops: seq<Op>, idents: set<Ident>) {
    && (forall p | p in idents :: LastSaved(ops, p) == if FileName(p) in s.files then Some(s.files[FileName(p)])
        else None)
    && (forall p | p in idents && CacheKey(p) in s.cache :: LastSaved(ops, p) == Some(s.cache[CacheKey(p)]))
  }

  /** Each cached skill is the one in its file. */
  lemma {:induction false} CacheIsCoherent(ops: seq<Op>, idents: set<Ident>)
    requires Clean(idents) && Names(ops, idents)
    ensures Coherent(Run(ops), ops, idents)
    ensures forall p | p in idents && CacheKey(p) in Run(ops).cache ::
              FileName(p) in Run(ops).files && Run(ops).files[FileName(p)] == Run(ops).cache[CacheKey(p)]
  {
    if ops != [] {
      var init, op := ops[..|ops| - 1], ops[|ops| - 1];
      assert forall o :: o in init ==> o in ops;
      assert op in ops;
      CacheIsCoherent(init, idents);
      CoherentNext(Run(init), init, op, idents);
      assert ops == init + [op];
    }
  }

  lemma CoherentNext(s: State, ops: seq<Op>, op: Op, idents: set<Ident>)
    requires Clean(idents) && Named(op) <= idents && Coherent(s, ops, idents)
    ensures Coherent(Next(s, op), ops + [op], idents)
  {
    assert (ops + [op])[..|ops|] == ops;
    match op
    case Save(skill) => assert IdentOf(skill) in idents;
    case Load(p) => assert p in idents;
    case Restart =>
  }

  /** Two identities that share a cache key or a file: save one, and the other loads. */
  lemma SharedKeyMisleads(p: Ident, q: Ident)
    requires p != q && (CacheKey(p) == CacheKey(q) || FileName(p) == FileName(q))
    ensures var ops := [Save(Skill(p.id, p.version, "", "", ""))];
      AnswerOf(Run(ops), Load(q)) != Expected(LastSaved(ops, q))
  {
    var op := Save(Skill(p.id, p.version, "", "", ""));
    assert [op][..0] == [];
    assert Run([]) == State(map[], map[]);
    assert IdentOf(op.skill) == p;
    assert Run([op]) == Next(Run([]), op);
  }

  /** A center is faithful on exactly the identity sets that share no key. */
  lemma FaithfulIffClean(idents: set<Ident>)
    ensures Faithful(idents) <==> Clean(idents)
  {
    if Clean(idents) {
      forall ops, p | Names(ops, idents) && p in idents
        ensures AnswerOf(Run(ops), Load(p)) == Expected(LastSaved(ops, p))
      {
        CacheIsCoherent(ops, idents);
      }
    } else {
      var p, q :| p in idents && q in idents && p != q && (CacheKey(p) == CacheKey(q) || FileName(p) == FileName(q));
      SharedKeyMisleads(p, q);
      var ops := [Save(Skill(p.id, p.version, "", "", ""))];
      assert Names(ops, idents);
    }
  }

  /** Ids without a colon or an underscore share no key. */
  lemma PlainIdsAreClean(idents: set<Ident>)
    requires forall p | p in idents :: ':' !in p.id && '_' !in p.id
    ensures Clean(idents)
  {
    forall p, q | p in idents && q in idents && p != q
      ensures CacheKey(p) != CacheKey(q) && FileName(p) != FileName(q)
    {
      if CacheKey(p) == CacheKey(q) { Keys.JoinInjective(p.id, p.version, q.id, q.version, ':'); }
      if FileName(p) == FileName(q) {
        SameStem(p, q);
        Keys.JoinInjective(p.id, p.version, q.id, q.version, '_');
      }
    }
  }

  lemma SameStem(p: Ident, q: Ident)
    requires FileName(p) == FileName(q)
    ensures Keys.Join(p.id, '_', p.version) == Keys.Join(q.id, '_', q.version)
  {
    var f := FileName(p);
    assert f[..|f| - 5] == Keys.Join(p.id, '_', p.version) && f[..|f| - 5] == Keys.Join(q.id, '_', q.version);
  }

  /** With such characters they may: one pair shares a file, the other a cache entry. */
  lemma SeparatorsClash()
    ensures !Clean({Ident("kb", "qa_1.0.0"), Ident("kb_qa", "1.0.0")})
    ensures !Clean({Ident("kb", "qa:1.0.0"), Ident("kb:qa", "1.0.0")})
  {
    var p, q := Ident("kb", "qa_1.0.0"), Ident("kb_qa", "1.0.0");
    assert "kb" + "_" + "qa_1.0.0" == "kb_qa" + "_" + "1.0.0" == "kb_qa_1.0.0";
    assert FileName(p) == FileName(q) && p.id != q.id;
    var r, s := Ident("kb", "qa:1.0.0"), Ident("kb:qa", "1.0.0");
    assert "kb" + ":" + "qa:1.0.0" == "kb:qa" + ":" + "1.0.0" == "kb:qa:1.0.0";
    assert CacheKey(r) == CacheKey(s) && r.id != s.id;
  }

  // --------------------------------------------------- the latest of each skill

  function Id(s: Skill): string {
    s.id
  }

  predicate Newer(s: Skill, t: Skill) {
    VersionGt(s.version, t.version)
  }

  /** The versions of one skill, in the order listed. */
  function VersionsOf(listing: seq<Skill>, id: string): seq<string> {
    if listing == [] then []
    else
      var s := listing[|listing| - 1];
      VersionsOf(listing[..|listing| - 1], id) + if s.id == id then [s.version] else []
  }

  lemma {:induction false} VersionsListed(listing: seq<Skill>, id: string)
    ensures forall v :: v in VersionsOf(listing, id) <==> exists s | s in listing :: s.id == id && s.version == v
  {
    if listing != [] {
      var init, s := listing[..|listing| - 1], listing[|listing| - 1];
      VersionsListed(init, id);
      assert forall t :: t in listing <==> t in init || t == s;
    }
  }

  /** The skill kept is the latest of its versions. */
  lemma {:induction false} ChosenIsLatest(listing: seq<Skill>, id: string)
    ensures var c, vs := Chosen(Id, Newer, listing, id), VersionsOf(listing, id);
      if vs == [] then c.None? else c.Some? && c.value.version == Latest(vs)
  {
    if listing != [] {
      var init, s := listing[..|listing| - 1], listing[|listing| - 1];
      ChosenIsLatest(init, id);
      var vs := VersionsOf(init, id);
      if s.id == id {
        assert (vs + [s.version])[..|vs|] == vs;
      } else {
        assert VersionsOf(listing, id) == vs;
      }
    }
  }

  /** Where the versions of a skill are ordered, no file of it is newer than the one listed. */
  lemma LatestSkillIsNewest(listing: seq<Skill>, r: seq<Skill>, k: nat, versions: set<string>)
    requires Catalogue(Id, Newer, listing, r) && k < |r|
    requires versions == (set v | v in VersionsOf(listing, r[k].id)) && !Straddled(versions)
    ensures r[k] in listing
    ensures forall s | s in listing && s.id == r[k].id :: !VersionGt(s.version, r[k].version)
  {
    var vs := VersionsOf(listing, r[k].id);
    ChosenExists(Id, Newer, listing, r[k].id);
    ChosenIsLatest(listing, r[k].id);
    VersionsListed(listing, r[k].id);
    TransitiveIffNotStraddled(versions);
    LatestIsNewest(versions, vs);
  }

  /** Every file is under its own skill's name: what saving alone leaves in a directory. */
  ghost predicate Filed(files: map<string, Skill>) {
    forall n | n in files :: n == FileName(IdentOf(files[n]))
  }

  lemma {:induction false} RunsKeepFiled(ops: seq<Op>)
    ensures Filed(Run(ops).files)
  {
    if ops != [] { RunsKeepFiled(ops[..|ops| - 1]); }
  }

  lemma {:induction false} CommonStart(c: string, v: string, w: string)
    requires TextGt(c + v, c + w)
    ensures TextGt(v, w)
  {
    if c == "" {
      assert c + v == v && c + w == w;
    } else {
      assert Codes(c + v)[0] == c[0] as int && Codes(c + w)[0] == c[0] as int;
      assert (c + v)[1..] == c[1..] + v && (c + w)[1..] == c[1..] + w;
      assert Codes(c + v)[1..] == Codes(c[1..] + v) && Codes(c + w)[1..] == Codes(c[1..] + w);
      CommonStart(c[1..], v, w);
    }
  }

  /** Two files of one skill are in the order of their versions with the ending. */
  lemma FileOrder(id: string, v: string, w: string)
    requires TextGt(FileName(Ident(id, v)), FileName(Ident(id, w)))
    ensures NameGt(v, w)
  {
    assert FileName(Ident(id, v)) == id + ['_'] + (v + ".json") && FileName(Ident(id, w)) == id + ['_'] + (w + ".json");
    CommonStart(id + ['_'], v + ".json", w + ".json");
  }

  /** The versions of a skill are listed in the order of its files. */
  lemma {:induction false} VersionsInNameOrder(files: map<string, Skill>, names: seq<string>, id: string)
    requires Filed(files) && Ascending(Self, names) && forall n | n in names :: n in files
    ensures InNameOrder(VersionsOf(Read(files, names), id))
    ensures forall v | v in VersionsOf(Read(files, names), id) :: FileName(Ident(id, v)) in names
  {
    if names != [] {
      var n := |names| - 1;
      var init, last := names[..n], names[n];
      VersionsInNameOrder(files, init, id);
      assert Read(files, names)[..n] == Read(files, init);
      var before := VersionsOf(Read(files, init), id);
      if files[last].id == id {
        forall v | v in before ensures NameGt(files[last].version, v) {
          var i :| 0 <= i < n && names[i] == FileName(Ident(id, v));
          assert TextGt(Self(names[n]), Self(names[i]));
          FileOrder(id, files[last].version, v);
        }
      } else {
        assert VersionsOf(Read(files, names), id) == before;
      }
    }
  }

  /** No file of this skill has a version newer than w. */
  ghost predicate NoneNewer(files: map<string, Skill>, id: string, w: string) {
    forall n | n in files && files[n].id == id :: !VersionGt(files[n].version, w)
  }

  /**
    In a directory the center has written, no file of a listed skill is newer than the entry, if
    and only if its versions are not overshadowed; and if they are, there is no newest to list.
  */
  lemma ListedIsNewestIff(files: map<string, Skill>, names: seq<string>, r: seq<Skill>, k: nat)
    requires Filed(files) && Sorted(files, names) && Catalogue(Id, Newer, Read(files, names), r) && k < |r|
    requires NoStub(VersionsOf(Read(files, names), r[k].id))
    ensures NoneNewer(files, r[k].id, r[k].version) <==> !Overshadowed(VersionsOf(Read(files, names), r[k].id))
    ensures NoneNewer(files, r[k].id, r[k].version)
            <==> exists v :: Newest(VersionsOf(Read(files, names), r[k].id), v)
  {
    var id := r[k].id;
    var versions := VersionsOf(Read(files, names), id);
    ChosenIsLatest(Read(files, names), id);
    assert versions != [] && r[k].version == Latest(versions);
    LatestListed(versions);
    VersionsInNameOrder(files, names, id);
    NamedLatestIsNewestIff(versions);
    NewestExistsIff(versions);
    NoneNewerIff(files, names, id, Latest(versions));
  }

  lemma NoneNewerIff(files: map<string, Skill>, names: seq<string>, id: string, w: string)
    requires Sorted(files, names) && w in VersionsOf(Read(files, names), id)
    ensures NoneNewer(files, id, w) <==> Newest(VersionsOf(Read(files, names), id), w)
  {
    var listing := Read(files, names);
    VersionsListed(listing, id);
    if NoneNewer(files, id, w) {
      forall v | v in VersionsOf(listing, id) ensures !VersionGt(v, w) {
        var s :| s in listing && s.id == id && s.version == v;
        var i :| 0 <= i < |listing| && listing[i] == s;
        assert names[i] in files && files[names[i]] == s;
      }
    }
    if Newest(VersionsOf(listing, id), w) {
      forall n | n in files && files[n].id == id ensures !VersionGt(files[n].version, w) {
        var i :| 0 <= i < |names| && names[i] == n;
        assert listing[i] == files[n];
      }
    }
  }

  lemma SkillTurn(d: Dict<Skill>, xs: seq<Skill>, s: Skill)
    requires Represents(d, Id, Newer, xs)
    ensures var newer := s.id !in d.values || VersionGt(s.version, d.values[s.id].version);
      Represents(if newer then d.Put(s.id, s) else d, Id, Newer, xs + [s])
  {
    Turn(d, Id, Newer, xs, s);
  }

  // ----------------------------------------------------------------- the class

  /** The payloads of these files. */
  function Read(files: map<string, Skill>, names: seq<string>): seq<Skill>
    requires forall n | n in names :: n in files
  {
    seq(|names|, i requires 0 <= i < |names| => files[names[i]])
  }

  function Self(name: string): string {
    name
  }

  ghost predicate Sorted(files: map<string, Skill>, names: seq<string>) {
    Ascending(Self, names) && forall n :: n in names <==> n in files
  }

  /** r has the latest skill for each id, taken over the files in the order of their names. */
  ghost predicate ListsLatest(files: map<string, Skill>, r: seq<Skill>) {
    exists names :: Sorted(files, names) && Catalogue(Id, Newer, Read(files, names), r)
  }

  /** The files alone determine the list: the order in which the directory was read does not show. */
  lemma ListsLatestUnique(files: map<string, Skill>, r: seq<Skill>, s: seq<Skill>)
    requires ListsLatest(files, r) && ListsLatest(files, s)
    ensures r == s
  {
    var a :| Sorted(files, a) && Catalogue(Id, Newer, Read(files, a), r);
    var b :| Sorted(files, b) && Catalogue(Id, Newer, Read(files, b), s);
    SamePrefix(Self, a, b, |a|);
    SamePrefix(Self, b, a, |b|);
    assert a == b;
    CatalogueUnique(Id, Newer, Read(files, a), r, s);
  }

  class SkillCenter {
    var files: map<string, Skill>
    var cache: map<string, Skill>

    ghost function Abs(): State
      reads this
    {
      State(files, cache)
    }

    /** A center on an existing directory. */
    constructor (files: map<string, Skill>)
      ensures Abs() == State(files, map[])
    {
      this.files := files;
      cache := map[];
    }

    method GenerateSkill(id: string, name: string, template: string, config: string, version: string)
      returns (skill: Skill)
      modifies this
      ensures skill == Skill(id, version, name, template, config)
      ensures Abs() == Next(old(Abs()), Save(skill))
    {
      skill := Skill(id, version, name, template, config);
      SaveSkill(skill);
    }

    method SaveSkill(skill: Skill)
      modifies this
      ensures Abs() == Next(old(Abs()), Save(skill))
    {
      var target := FileName(IdentOf(skill));
      files := files[target := skill];
      cache := cache[CacheKey(IdentOf(skill)) := skill];
    }

    method LoadSkill(id: string, version: string) returns (r: Result<Skill, FileNotFound>)
      modifies this`cache
      ensures Abs() == Next(old(Abs()), Load(Ident(id, version)))
      ensures Loaded(r) == AnswerOf(old(Abs()), Load(Ident(id, version)))
    {
      var key := CacheKey(Ident(id, version));
      if key in cache { return Ok(cache[key]); }
      var target := FileName(Ident(id, version));
      if target !in files { return Err(FileNotFound); }
      var skill := files[target];
      cache := cache[key := skill];
      r := Ok(skill);
    }

    /** `glob` is the directory listing, in whatever order the system gives it. */
    method ListLatestSkills(glob: seq<string>) returns (r: seq<Skill>)
      requires forall i, j | 0 <= i < j < |glob| :: glob[i] != glob[j]
      requires forall n :: n in glob <==> n in files
      ensures ListsLatest(files, r)
    {
      SortAscending(Self, glob);
      var sorted := SortBy(Self, glob);
      assert Sorted(files, sorted);
      r := KeepLatest(Read(files, sorted));
    }

    /** Each payload takes the place of an older version of its skill. */
    static method KeepLatest(payloads: seq<Skill>) returns (r: seq<Skill>)
      ensures Catalogue(Id, Newer, payloads, r)
    {
      var bySkillId: Dict<Skill> := Dict([], map[]);
      EmptyDict(Id, Newer);
      for i := 0 to |payloads|
        invariant Represents(bySkillId, Id, Newer, payloads[..i])
      {
        var spec := payloads[i];
        SkillTurn(bySkillId, payloads[..i], spec);
        assert payloads[..i] + [spec] == payloads[..i + 1];
        if spec.id !in bySkillId.values || VersionGt(spec.version, bySkillId.values[spec.id].version) {
          bySkillId := bySkillId.Put(spec.id, spec);
        }
      }
      assert payloads[..|payloads|] == payloads;
      SortedValuesAreTheCatalogue(bySkillId, Id, Newer, payloads);
      r := SortBy(Id, bySkillId.Values());
    }
  }
}
