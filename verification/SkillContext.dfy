/** Merging the skills of the center with those found in files: one item for each name. */
module SkillContext {
  import opened Optional
  import opened Words
  import opened TokenBudget
  import opened Versions
  import opened Dicts
  import opened SkillCenter

  datatype Item = Item(name: string, description: string, path: string, version: Option<string>, enabled: bool)

  function Spaced(s: string): string {
    seq(|s|, i requires 0 <= i < |s| => if s[i] == '\n' then ' ' else s[i])
  }

  function Described(template: string): string {
    var d := Spaced(Strip(template));
    if d == "" then "Skill generated from SkillCenter." else if |d| > 180 then d[..180] + "..." else d
  }

  /**
    A description is one line: the template without the whitespace around it and with spaces for
    its line breaks, cut after 180 characters and marked, or a sentence of its own when it is blank.
  */
  lemma DescribedInOneLine(template: string)
    ensures var t, d := Strip(template), Described(template);
      && '\n' !in d && |d| <= 183
      && (t == "" ==> d == "Skill generated from SkillCenter.")
      && (0 < |t| <= 180 ==> |d| == |t|)
      && (|t| > 180 ==> |d| == 183 && d[180..] == "...")
      && (t != "" ==> forall i | 0 <= i < |d| && i < 180 :: d[i] == if t[i] == '\n' then ' ' else t[i])
  {
    var t, d := Strip(template), Described(template);
    if |t| > 180 { assert d == Spaced(t)[..180] + "..."; }
  }

  /** The item of a skill of the center; `path` locates its file. */
  function CenterItem(path: string -> string, s: Skill): Item {
    Item(s.name, Described(s.template), path(FileName(IdentOf(s))), Some(s.version), true)
  }

  function CenterItems(path: string -> string, skills: seq<Skill>): seq<Item> {
    seq(|skills|, i requires 0 <= i < |skills| => CenterItem(path, skills[i]))
  }

  /** An item found in a SKILL.md file: it has no version and is not enabled. */
  predicate FromFile(x: Item) {
    x.version.None? && !x.enabled
  }

  /** Names are compared in lower case. */
  function ByName(lower: string -> string): Item -> string {
    (x: Item) => lower(x.name)
  }

  /** When x takes the place of y. */
  predicate Overrides(x: Item, y: Item) {
    FromFile(x) || (x.enabled && !y.enabled) || ContextGt(x.version, y.version)
  }

  /** The rule of the second loop, whose items come from the center. */
  predicate Replaces(item: Item, existing: Item) {
    (item.enabled && !existing.enabled) || ContextGt(item.version, existing.version)
  }

  lemma ItemTurn(lower: string -> string, d: Dict<Item>, xs: seq<Item>, x: Item)
    requires Represents(d, ByName(lower), Overrides, xs) && x.enabled
    ensures var key := lower(x.name);
      Represents(if key !in d.values || Replaces(x, d.values[key]) then d.Put(key, x) else d,
                 ByName(lower), Overrides, xs + [x])
  {
    Turn(d, ByName(lower), Overrides, xs, x);
    assert ByName(lower)(x) == lower(x.name);
    assert forall y :: Overrides(x, y) == Replaces(x, y);
  }

  lemma FileTurn(lower: string -> string, d: Dict<Item>, xs: seq<Item>, x: Item)
    requires Represents(d, ByName(lower), Overrides, xs) && FromFile(x)
    ensures Represents(d.Put(lower(x.name), x), ByName(lower), Overrides, xs + [x])
  {
    Turn(d, ByName(lower), Overrides, xs, x);
    assert ByName(lower)(x) == lower(x.name);
  }

  // ------------------------------------------------------- what is kept of a name

  function LastNamed(lower: string -> string, items: seq<Item>, k: string): Option<Item> {
    if items == [] then None
    else if lower(items[|items| - 1].name) == k then Some(items[|items| - 1])
    else LastNamed(lower, items[..|items| - 1], k)
  }

  function SkillVersions(lower: string -> string, skills: seq<Skill>, k: string): seq<string> {
    if skills == [] then []
    else
      var s := skills[|skills| - 1];
      SkillVersions(lower, skills[..|skills| - 1], k) + if lower(s.name) == k then [s.version] else []
  }

  lemma {:induction false} SkillVersionsListed(lower: string -> string, skills: seq<Skill>, k: string)
    ensures forall v :: v in SkillVersions(lower, skills, k) <==> exists s | s in skills ::
              lower(s.name) == k && s.version == v
  {
    if skills != [] {
      var init, s := skills[..|skills| - 1], skills[|skills| - 1];
      SkillVersionsListed(lower, init, k);
      assert forall t :: t in skills <==> t in init || t == s;
    }
  }

  lemma {:induction false} FilesAlone(lower: string -> string, files: seq<Item>, k: string)
    requires forall i | 0 <= i < |files| :: FromFile(files[i])
    ensures Chosen(ByName(lower), Overrides, files, k) == LastNamed(lower, files, k)
    ensures LastNamed(lower, files, k).Some? ==> FromFile(LastNamed(lower, files, k).value)
  {
    if files != [] { FilesAlone(lower, files[..|files| - 1], k); }
  }

  /** c is kept: the latest the center has under the name, or, when it has none, the last file's. */
  ghost predicate Kept(lower: string -> string, path: string -> string, files: seq<Item>, skills: seq<Skill>,
                       k: string, c: Option<Item>)
  {
    var vs := SkillVersions(lower, skills, k);
    if vs == [] then c == LastNamed(lower, files, k)
    else c.Some? && c.value.enabled && c.value.version == Some(Latest(vs))
         && exists s | s in skills :: lower(s.name) == k && c.value == CenterItem(path, s)
  }

  /** The center goes before the files, and within it the version decides. */
  lemma {:induction false} CenterOverridesFiles(lower: string -> string, path: string -> string, files: seq<Item>,
                                                skills: seq<Skill>, k: string)
    requires forall i | 0 <= i < |files| :: FromFile(files[i])
    ensures Kept(lower, path, files, skills, k, Chosen(ByName(lower), Overrides, files + CenterItems(path, skills), k))
  {
    FilesAlone(lower, files, k);
    if skills == [] {
      assert files + CenterItems(path, skills) == files;
    } else {
      var init, s := skills[..|skills| - 1], skills[|skills| - 1];
      var items := files + CenterItems(path, init);
      CenterOverridesFiles(lower, path, files, init, k);
      KeptNext(lower, path, files, init, s, k, Chosen(ByName(lower), Overrides, items, k));
      ChosenNext(lower, items, CenterItem(path, s), k);
      CenterItemsNext(path, files, init, s);
      assert init + [s] == skills;
    }
  }

  lemma CenterItemsNext(path: string -> string, files: seq<Item>, skills: seq<Skill>, s: Skill)
    ensures files + CenterItems(path, skills + [s]) == files + CenterItems(path, skills) + [CenterItem(path, s)]
  {
  }

  lemma ChosenNext(lower: string -> string, items: seq<Item>, x: Item, k: string)
    ensures Chosen(ByName(lower), Overrides, items + [x], k)
         == var c := Chosen(ByName(lower), Overrides, items, k);
            if lower(x.name) == k && (c.None? || Overrides(x, c.value)) then Some(x) else c
  {
    assert (items + [x])[..|items|] == items;
  }

  lemma KeptNext(lower: string -> string, path: string -> string, files: seq<Item>, skills: seq<Skill>, s: Skill,
                 k: string, c: Option<Item>)
    requires Kept(lower, path, files, skills, k, c)
    requires LastNamed(lower, files, k).Some? ==> FromFile(LastNamed(lower, files, k).value)
    ensures var x := CenterItem(path, s);
      Kept(lower, path, files, skills + [s], k,
           if lower(s.name) == k && (c.None? || Overrides(x, c.value)) then Some(x) else c)
  {
    var vs := SkillVersions(lower, skills, k);
    assert (skills + [s])[..|skills|] == skills;
    assert forall t | t in skills :: t in skills + [s];
    assert s in skills + [s];
    if lower(s.name) == k {
      assert SkillVersions(lower, skills + [s], k) == vs + [s.version];
      assert (vs + [s.version])[..|vs|] == vs;
      if vs != [] { CopiesAgree(Some(s.version), c.value.version); }
    } else {
      assert SkillVersions(lower, skills + [s], k) == vs;
    }
  }

  /** Where the versions under one name are ordered, no skill of the center under it is newer than the item kept. */
  lemma KeptIsNewest(lower: string -> string, path: string -> string, files: seq<Item>, skills: seq<Skill>, k: string,
                     c: Item)
    requires Kept(lower, path, files, skills, k, Some(c)) && !Straddled(set v | v in SkillVersions(lower, skills, k))
    ensures forall s | s in skills && lower(s.name) == k ::
              c.enabled && c.version.Some? && !VersionGt(s.version, c.version.value)
    ensures (forall s | s in skills :: lower(s.name) != k) ==> LastNamed(lower, files, k) == Some(c)
  {
    SkillVersionsListed(lower, skills, k);
    var vs := SkillVersions(lower, skills, k);
    if vs != [] {
      var versions := set v | v in vs;
      TransitiveIffNotStraddled(versions);
      LatestIsNewest(versions, vs);
    }
  }

  /** So it is for each item of a catalogue. */
  lemma LoadedItemIsNewest(lower: string -> string, path: string -> string, files: seq<Item>, skills: seq<Skill>,
                           r: seq<Item>, i: nat)
    requires forall i | 0 <= i < |files| :: FromFile(files[i])
    requires Catalogue(ByName(lower), Overrides, files + CenterItems(path, skills), r) && i < |r|
    requires !Straddled(set v | v in SkillVersions(lower, skills, lower(r[i].name)))
    ensures forall s | s in skills && lower(s.name) == lower(r[i].name) ::
              r[i].enabled && r[i].version.Some? && !VersionGt(s.version, r[i].version.value)
    ensures (forall s | s in skills :: lower(s.name) != lower(r[i].name)) ==>
              LastNamed(lower, files, lower(r[i].name)) == Some(r[i])
  {
    var k := lower(r[i].name);
    assert ByName(lower)(r[i]) == k;
    CenterOverridesFiles(lower, path, files, skills, k);
    KeptIsNewest(lower, path, files, skills, k, r[i]);
  }

  // --------------------------------------------------------------------- load

  method LoadFromSkillCenter(path: string -> string, skills: seq<Skill>) returns (items: seq<Item>)
    ensures items == CenterItems(path, skills)
  {
    items := [];
    for i := 0 to |skills|
      invariant items == CenterItems(path, skills[..i])
    {
      var description := Spaced(Strip(skills[i].template));
      if |description| > 180 { description := description[..180] + "..."; }
      items := items + [Item(skills[i].name, if description != "" then description
          else "Skill generated from SkillCenter.",
                             path(FileName(IdentOf(skills[i]))), Some(skills[i].version), true)];
    }
    assert skills[..|skills|] == skills;
  }

  /** `skills` is what the center lists, `fromFiles` what the scan of the directories found. */
  method Load(lower: string -> string, path: string -> string, skills: seq<Skill>, fromFiles: seq<Item>)
    returns (r: seq<Item>)
    requires forall i | 0 <= i < |fromFiles| :: FromFile(fromFiles[i])
    ensures Catalogue(ByName(lower), Overrides, fromFiles + CenterItems(path, skills), r)
  {
    var fromCenter := LoadFromSkillCenter(path, skills);
    var merged := MergeFiles(lower, fromFiles);
    merged := MergeCenter(lower, fromFiles, fromCenter, merged);
    SortedValuesAreTheCatalogue(merged, ByName(lower), Overrides, fromFiles + fromCenter);
    r := SortBy(ByName(lower), merged.Values());
  }

  method MergeCenter(lower: string -> string, ghost fromFiles: seq<Item>, fromCenter: seq<Item>, files: Dict<Item>)
    returns (merged: Dict<Item>)
    requires Represents(files, ByName(lower), Overrides, fromFiles)
    requires forall i | 0 <= i < |fromCenter| :: fromCenter[i].enabled
    ensures Represents(merged, ByName(lower), Overrides, fromFiles + fromCenter)
  {
    merged := files;
    assert fromFiles + fromCenter[..0] == fromFiles;
    for i := 0 to |fromCenter|
      invariant Represents(merged, ByName(lower), Overrides, fromFiles + fromCenter[..i])
    {
      var item := fromCenter[i];
      var key := lower(item.name);
      ItemTurn(lower, merged, fromFiles + fromCenter[..i], item);
      assert fromFiles + fromCenter[..i] + [item] == fromFiles + fromCenter[..i + 1];
      if key !in merged.values || Replaces(item, merged.values[key]) {
        merged := merged.Put(key, item);
      }
    }
    assert fromCenter[..|fromCenter|] == fromCenter;
  }

  method MergeFiles(lower: string -> string, fromFiles: seq<Item>) returns (merged: Dict<Item>)
    requires forall i | 0 <= i < |fromFiles| :: FromFile(fromFiles[i])
    ensures Represents(merged, ByName(lower), Overrides, fromFiles)
  {
    merged := Dict([], map[]);
    EmptyDict(ByName(lower), Overrides);
    for i := 0 to |fromFiles|
      invariant Represents(merged, ByName(lower), Overrides, fromFiles[..i])
    {
      var item := fromFiles[i];
      FileTurn(lower, merged, fromFiles[..i], item);
      assert fromFiles[..i] + [item] == fromFiles[..i + 1];
      merged := merged.Put(lower(item.name), item);
    }
    assert fromFiles[..|fromFiles|] == fromFiles;
  }
}
