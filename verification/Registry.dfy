/** The source registry: the in-memory source list, the directory behind it, and the
    lock-held edits of add, update and delete.

    Each edit is one atomic step, so a sequence of edits is exactly an interleaving of
    concurrent add, update and delete calls. */
module Registry {
  import opened Util
  import opened Sources
  import opened Directory

  datatype Catalog = Catalog(sources: seq<SourceConfig>, files: Files)

  // -- saving and deleting files --------------------------------------------------------

  /** `_find_source_path`: the file whose content has this name. */
  ghost function FindPath(files: Files, name: string): (path: Option<string>)
    ensures path.Some? ==> Names(files, path.value, name)
    ensures path.None? ==> forall f :: !Names(files, f, name)
  {
    if exists f :: Names(files, f, name) then
      var f :| Names(files, f, name);
      Some(f)
    else None
  }

  ghost function SavePath(files: Files, name: string): string {
    FindPath(files, name).GetOr(NewPath(files, name))
  }

  /** `save_source` */
  ghost function Save(files: Files, s: SourceConfig): Files {
    files[SavePath(files, s.name) := Doc(Dump(s))]
  }

  /** `delete_source_file` */
  ghost function Remove(files: Files, name: string): Files {
    var path := FindPath(files, name);
    if path.Some? then files - {path.value} else files
  }

  // -- the edits ------------------------------------------------------------------------

  ghost predicate HasName(sources: seq<SourceConfig>, name: string) {
    exists i :: 0 <= i < |sources| && sources[i].name == name
  }

  ghost function IndexOf(sources: seq<SourceConfig>, name: string): (i: nat)
    requires HasName(sources, name)
    ensures i < |sources| && sources[i].name == name
    ensures forall j :: 0 <= j < i ==> sources[j].name != name
  {
    if sources[0].name == name then 0
    else
      assert HasName(sources[1..], name) by {
        var i :| 0 <= i < |sources| && sources[i].name == name;
        assert sources[1..][i - 1].name == name;
      }
      var i := IndexOf(sources[1..], name);
      i + 1
  }

  function Without(sources: seq<SourceConfig>, name: string): (r: seq<SourceConfig>)
    ensures forall s :: s in r <==> s in sources && s.name != name
  {
    if sources == [] then []
    else
      var rest := Without(sources[1..], name);
      if sources[0].name == name then rest else [sources[0]] + rest
  }

  /** The lock-held section of `add_source`. */
  ghost function Add(r: Catalog, raw: RawSource, minted: string): Result<(Catalog, SourceConfig), Error> {
    if raw.name.Some? && HasName(r.sources, raw.name.value) then Err(AlreadyExists(raw.name.value))
    else
      var built := Build(raw, NO_DEFAULTS, minted);
      if built.Err? then Err(built.error)
      else Ok((Catalog(r.sources + [built.value], Save(r.files, built.value)), built.value))
  }

  /** The record an update builds from: the request, with the name defaulting to the
      current one and the id always the current one. */
  function Merged(raw: RawSource, name: string, id: string): RawSource {
    raw.(name := Some(raw.name.GetOr(name)), id := Some(id))
  }

  /** The files after an edit: the new version saved and, on a rename, the old file deleted. */
  ghost function Stored(files: Files, name: string, s: SourceConfig): Files {
    if s.name != name then Remove(Save(files, s), name) else Save(files, s)
  }

  /** The first lock-held section of `update_source`. */
  ghost function Update(r: Catalog, name: string, raw: RawSource, minted: string)
    : Result<(Catalog, SourceConfig), Error>
  {
    if !HasName(r.sources, name) then Err(NotFound(name))
    else
      var i := IndexOf(r.sources, name);
      var built := Build(Merged(raw, name, r.sources[i].id), NO_DEFAULTS, minted);
      if built.Err? then Err(built.error)
      else
        var s := built.value;
        if s.name != name && HasName(r.sources, s.name) then Err(AlreadyExists(s.name))
        else
          Ok((Catalog(r.sources[i := s], Stored(r.files, name, s)), s))
  }

  /** The lock-held section of `delete_source`. */
  ghost function Delete(r: Catalog, name: string): Result<(Catalog, SourceConfig), Error> {
    if !HasName(r.sources, name) then Err(NotFound(name))
    else
      Ok((Catalog(Without(r.sources, name), Remove(r.files, name)), r.sources[IndexOf(r.sources, name)]))
  }

  // -- the invariant ------------------------------------------------------------------------

  type Reader = RawSource -> Result<SourceConfig, Error>

  /** Reading back a record that has its id. */
  function ReaderFor(defaults: SourceDefaults): Reader {
    (raw: RawSource) => Build(raw, defaults, "")
  }

  ghost predicate Source(files: Files, f: string) {
    f in files && IsYaml(f)
  }

  /** Every source file parses, has an id, builds, and no two share a name. */
  ghost predicate Good(files: Files, read: Reader) {
    && (forall f :: Source(files, f) ==> Readable(files[f], read))
    && (forall f, g :: Source(files, f) && Source(files, g) && files[f].raw.name == files[g].raw.name ==> f == g)
  }

  ghost predicate Readable(body: FileBody, read: Reader) {
    && body.Doc? && HasId(body.raw) && read(body.raw).Ok?
    && body.raw.name == Some(read(body.raw).value.name)
    && body.raw.id == Some(read(body.raw).value.id)
  }

  ghost predicate Holds(files: Files, read: Reader, s: SourceConfig) {
    exists f :: Source(files, f) && files[f].Doc? && read(files[f].raw) == Ok(s)
  }

  /** Names and ids are unique in memory, names are unique on disk, and the files hold
      exactly the sources in memory. */
  ghost predicate Inv(r: Catalog, defaults: SourceDefaults) {
    && Good(r.files, ReaderFor(defaults))
    && UniqueNames(r.sources) && UniqueIds(r.sources)
    && forall s :: s in r.sources <==> Holds(r.files, ReaderFor(defaults), s)
  }

  lemma HeldIsValid(files: Files, defaults: SourceDefaults, s: SourceConfig)
    requires Good(files, ReaderFor(defaults)) && Holds(files, ReaderFor(defaults), s)
    ensures s.Valid() && s.id != ""
  {
    var f :| Source(files, f) && files[f].Doc? && ReaderFor(defaults)(files[f].raw) == Ok(s);
    BuildIsValid(files[f].raw, defaults, "", "");
  }

  lemma DumpReadable(defaults: SourceDefaults, s: SourceConfig)
    requires s.Valid() && s.id != ""
    ensures Readable(Doc(Dump(s)), ReaderFor(defaults)) && ReaderFor(defaults)(Dump(s)) == Ok(s)
  {
    DumpRebuildsValid(s, defaults, "");
  }

  /** Saving puts the source in place of whatever had its name. */
  lemma SaveReplaces(files: Files, read: Reader, s: SourceConfig)
    requires Good(files, read) && Readable(Doc(Dump(s)), read) && read(Dump(s)) == Ok(s)
    ensures Good(Save(files, s), read)
    ensures forall x :: Holds(Save(files, s), read, x) <==> (x == s || (Holds(files, read, x) && x.name != s.name))
  {
    var p, files' := SavePath(files, s.name), Save(files, s);
    assert IsYaml(p);
    forall f | Source(files, f) && f != p ensures files[f].raw.name != Some(s.name) {
      assert Readable(files[f], read);
      if files[f].raw.name == Some(s.name) { assert Names(files, f, s.name); }
    }
    forall x ensures Holds(files', read, x) <==> (x == s || (Holds(files, read, x) && x.name != s.name)) {
      if Holds(files', read, x) {
        var f :| Source(files', f) && files'[f].Doc? && read(files'[f].raw) == Ok(x);
        if f != p { assert Source(files, f) && Readable(files[f], read); }
      }
      if x == s { assert Source(files', p); }
      if Holds(files, read, x) && x.name != s.name {
        var f :| Source(files, f) && files[f].Doc? && read(files[f].raw) == Ok(x);
        assert Readable(files[f], read);
        assert Source(files', f);
      }
    }
    forall f | Source(files', f) ensures Readable(files'[f], read) {
      if f != p { assert Source(files, f); }
    }
    forall f, g | Source(files', f) && Source(files', g) && files'[f].raw.name == files'[g].raw.name ensures f == g {
      if f != p { assert Source(files, f); }
      if g != p { assert Source(files, g); }
    }
  }

  /** Deleting a source's file removes that source and no other. */
  lemma RemoveDrops(files: Files, read: Reader, name: string)
    requires Good(files, read)
    ensures Good(Remove(files, name), read)
    ensures forall x :: Holds(Remove(files, name), read, x) <==> (Holds(files, read, x) && x.name != name)
  {
    var files' := Remove(files, name);
    forall f | Source(files', f) ensures Source(files, f) && files[f] == files'[f] {}
    forall x ensures Holds(files', read, x) <==> (Holds(files, read, x) && x.name != name) {
      if Holds(files', read, x) {
        var f :| Source(files', f) && files'[f].Doc? && read(files'[f].raw) == Ok(x);
        assert Source(files, f) && Readable(files[f], read);
        if x.name == name { assert Names(files, f, name); }
      }
      if Holds(files, read, x) && x.name != name {
        var f :| Source(files, f) && files[f].Doc? && read(files[f].raw) == Ok(x);
        assert Readable(files[f], read);
        assert Source(files', f);
      }
    }
  }

  // -- reloading ------------------------------------------------------------------------------

  lemma {:induction false} LoadGoodFrom(
    names: seq<string>, files: Files, build: Builder, read: Reader, seen: set<string>)
    requires NoDuplicates(names) && Good(files, read)
    requires forall f :: f in names ==> f in files
    requires forall f :: Source(files, f) ==> build(f, files[f].raw) == read(files[f].raw)
    requires forall f :: f in names && Source(files, f) ==> read(files[f].raw).value.name !in seen
    ensures LoadFrom(names, files, build, seen).Ok?
    ensures var (list, out) := LoadFrom(names, files, build, seen).value;
      && out == files && UniqueNames(list)
      && (forall s :: s in list <==> exists f :: f in names && Source(files, f) && read(files[f].raw) == Ok(s))
  {
    if names != [] {
      var f := names[0];
      assert names == [f] + names[1..];
      if IsYaml(f) {
        assert Source(files, f) && Readable(files[f], read);
        var s := read(files[f].raw).value;
        forall g | g in names[1..] && Source(files, g)
          ensures read(files[g].raw).value.name !in seen + {s.name}
        {
          assert Readable(files[g], read);
        }
        LoadGoodFrom(names[1..], files, build, read, seen + {s.name});
        var list := LoadFrom(names[1..], files, build, seen + {s.name}).value.0;
        forall i | 0 <= i < |list| ensures list[i].name != s.name {
          assert list[i] in list;
          var g :| g in names[1..] && Source(files, g) && read(files[g].raw) == Ok(list[i]);
        }
      } else {
        LoadGoodFrom(names[1..], files, build, read, seen);
      }
    }
  }

  /** Whatever ids would be minted, loading a good directory succeeds, writes nothing,
      and returns exactly the sources it holds, each once. */
  lemma LoadGood(files: Files, defaults: SourceDefaults, mint: string -> string) returns (list: seq<SourceConfig>)
    requires Good(files, ReaderFor(defaults))
    ensures Load(files, defaults, mint) == Ok((list, files))
    ensures UniqueNames(list)
    ensures forall s :: s in list <==> Holds(files, ReaderFor(defaults), s)
  {
    var read, build := ReaderFor(defaults), BuilderFor(defaults, mint);
    forall f | Source(files, f) ensures build(f, files[f].raw) == read(files[f].raw) {
      assert Readable(files[f], read);
      BuildIsValid(files[f].raw, defaults, "", mint(f));
    }
    LoadGoodFrom(Sorted(files.Keys), files, build, read, {});
    list := Load(files, defaults, mint).value.0;
    forall s ensures s in list <==> Holds(files, read, s) {
      if Holds(files, read, s) {
        var f :| Source(files, f) && files[f].Doc? && read(files[f].raw) == Ok(s);
        assert f in Sorted(files.Keys);
      }
      if s in list {
        var f :| f in Sorted(files.Keys) && Source(files, f) && read(files[f].raw) == Ok(s);
        assert Readable(files[f], read);
      }
    }
  }

  /** A reload returns the in-memory sources, ids included, in some order. */
  lemma ReloadIsPermutation(r: Catalog, defaults: SourceDefaults, mint: string -> string)
    requires Inv(r, defaults)
    ensures Load(r.files, defaults, mint).Ok?
    ensures Load(r.files, defaults, mint).value.1 == r.files
    ensures multiset(Load(r.files, defaults, mint).value.0) == multiset(r.sources)
  {
    var list := LoadGood(r.files, defaults, mint);
    SameElementsPermute(list, r.sources);
  }

  // -- every edit keeps the invariant --------------------------------------------------------

  ghost predicate IdFree(sources: seq<SourceConfig>, id: string) {
    id != "" && forall s :: s in sources ==> s.id != id
  }

  lemma AddKeepsInv(r: Catalog, defaults: SourceDefaults, s: SourceConfig)
    requires Inv(r, defaults) && s.Valid() && IdFree(r.sources, s.id) && !HasName(r.sources, s.name)
    ensures Inv(Catalog(r.sources + [s], Save(r.files, s)), defaults)
  {
    DumpReadable(defaults, s);
    SaveReplaces(r.files, ReaderFor(defaults), s);
    forall x | x in r.sources ensures x.name != s.name && x.id != s.id {
      var i :| 0 <= i < |r.sources| && r.sources[i] == x;
    }
    AppendUnique(r.sources, s);
  }

  lemma AppendUnique(sources: seq<SourceConfig>, s: SourceConfig)
    requires UniqueNames(sources) && UniqueIds(sources)
    requires forall x :: x in sources ==> x.name != s.name && x.id != s.id
    ensures UniqueNames(sources + [s]) && UniqueIds(sources + [s])
  {
  }

  lemma TakenIdBreaksInv(r: Catalog, defaults: SourceDefaults, s: SourceConfig, r': Catalog)
    requires Inv(r, defaults) && !IdFree(r.sources, s.id) && r'.sources == r.sources + [s]
    ensures !Inv(r', defaults)
  {
    if s.id == "" {
      if Inv(r', defaults) {
        assert s in r'.sources;
        HeldIsValid(r'.files, defaults, s);
      }
    } else {
      var x :| x in r.sources && x.id == s.id;
      var i :| 0 <= i < |r.sources| && r.sources[i] == x;
      assert r'.sources[i].id == r'.sources[|r.sources|].id;
    }
  }

  /** Adding keeps the invariant exactly when the new source's id is free: a minted id,
      or one given in the request that no source uses yet. */
  lemma AddKeepsInvIff(r: Catalog, defaults: SourceDefaults, raw: RawSource, minted: string)
    requires Inv(r, defaults) && Add(r, raw, minted).Ok?
    ensures Inv(Add(r, raw, minted).value.0, defaults) <==>
      IdFree(r.sources, if HasId(raw) then raw.id.value else minted)
  {
    var (r', s) := Add(r, raw, minted).value;
    BuildIsValid(raw, NO_DEFAULTS, minted, minted);
    if IdFree(r.sources, s.id) {
      AddKeepsInv(r, defaults, s);
    } else {
      TakenIdBreaksInv(r, defaults, s, r');
    }
  }

  /** A registry of one source, and a request under another name that brings that source's
      id: it is accepted. */
  lemma TakenIdAccepted(defaults: SourceDefaults, s: SourceConfig, t: SourceConfig, minted: string)
    returns (r: Catalog)
    requires s.Valid() && t.Valid() && s.name != t.name && s.id == t.id != ""
    ensures r.sources == [s] && Inv(r, defaults) && Add(r, Dump(t), minted).Ok?
    ensures Add(r, Dump(t), minted).value.0.sources == [s, t] && !Inv(Add(r, Dump(t), minted).value.0, defaults)
  {
    OneSourceInv(defaults, s);
    r := Catalog([s], Save(map[], s));
    DumpRebuildsValid(t, NO_DEFAULTS, minted);
    assert !HasName(r.sources, t.name);
    AddKeepsInvIff(r, defaults, Dump(t), minted);
  }

  lemma OneSourceInv(defaults: SourceDefaults, s: SourceConfig)
    requires s.Valid() && s.id != ""
    ensures Inv(Catalog([s], Save(map[], s)), defaults)
  {
    AddKeepsInv(Catalog([], map[]), defaults, s);
    assert [] + [s] == [s];
  }

  /** Editing or renaming keeps the invariant and the source's id, and touches no other source. */
  lemma UpdateKeepsInv(r: Catalog, defaults: SourceDefaults, name: string, raw: RawSource, minted: string)
    requires Inv(r, defaults) && Update(r, name, raw, minted).Ok?
    ensures var (r', s) := Update(r, name, raw, minted).value;
      && Inv(r', defaults)
      && s.id == r.sources[IndexOf(r.sources, name)].id
      && s.name == raw.name.GetOr(name)
      && forall x :: x in r'.sources <==> (x == s || (x in r.sources && x.name != name))
  {
    var (r', s) := Update(r, name, raw, minted).value;
    var i := IndexOf(r.sources, name);
    var old_s := r.sources[i];
    var read := ReaderFor(defaults);
    HeldIsValid(r.files, defaults, old_s);
    BuildIsValid(Merged(raw, name, old_s.id), NO_DEFAULTS, minted, minted);
    DumpReadable(defaults, s);
    SaveReplaces(r.files, read, s);
    if s.name != name { RemoveDrops(Save(r.files, s), read, name); }
    OthersKeepNames(r.sources, i, s);
    forall x ensures x in r'.sources <==> (x == s || (x in r.sources && x.name != name)) {
      ReplacedElements(r.sources, i, s, x);
    }
    forall x | x in r.sources && x.name == s.name ensures s.name == name {
      var j :| 0 <= j < |r.sources| && r.sources[j] == x;
    }
  }

  lemma OthersKeepNames(sources: seq<SourceConfig>, i: nat, s: SourceConfig)
    requires i < |sources| && UniqueNames(sources) && UniqueIds(sources) && s.id == sources[i].id
    requires s.name == sources[i].name || !HasName(sources, s.name)
    ensures UniqueNames(sources[i := s]) && UniqueIds(sources[i := s])
  {
    forall j | 0 <= j < |sources| && j != i ensures sources[j].name != s.name {
      if sources[j].name == s.name { assert HasName(sources, s.name); }
    }
  }

  lemma ReplacedElements(sources: seq<SourceConfig>, i: nat, s: SourceConfig, x: SourceConfig)
    requires i < |sources| && UniqueNames(sources)
    ensures x in sources[i := s] <==> (x == s || (x in sources && x.name != sources[i].name))
  {
    if x in sources[i := s] && x != s {
      var j :| 0 <= j < |sources| && sources[i := s][j] == x;
      assert sources[j] == x;
    }
    if x in sources && x.name != sources[i].name {
      var j :| 0 <= j < |sources| && sources[j] == x;
      assert sources[i := s][j] == x;
    }
    if x == s { assert sources[i := s][i] == s; }
  }

  lemma DeleteKeepsInv(r: Catalog, defaults: SourceDefaults, name: string)
    requires Inv(r, defaults) && Delete(r, name).Ok?
    ensures var (r', s) := Delete(r, name).value;
      && Inv(r', defaults) && s in r.sources && s.name == name
      && forall x :: x in r'.sources <==> (x in r.sources && x != s)
  {
    RemoveDrops(r.files, ReaderFor(defaults), name);
    WithoutUnique(r.sources, name);
    OneOfThatName(r.sources, IndexOf(r.sources, name));
  }

  lemma OneOfThatName(sources: seq<SourceConfig>, i: nat)
    requires UniqueNames(sources) && i < |sources|
    ensures forall x :: x in sources && x.name == sources[i].name ==> x == sources[i]
  {
  }

  lemma {:induction false} WithoutUnique(sources: seq<SourceConfig>, name: string)
    requires UniqueNames(sources) && UniqueIds(sources)
    ensures UniqueNames(Without(sources, name)) && UniqueIds(Without(sources, name))
  {
    if sources != [] {
      WithoutUnique(sources[1..], name);
      var first, rest := sources[0], Without(sources[1..], name);
      forall x | x in sources[1..] ensures x.name != first.name && x.id != first.id {
        var j :| 0 <= j < |sources| - 1 && sources[j + 1] == x;
      }
      ConsUnique(first, rest);
    }
  }

  lemma ConsUnique(first: SourceConfig, rest: seq<SourceConfig>)
    requires UniqueNames(rest) && UniqueIds(rest)
    requires forall x :: x in rest ==> x.name != first.name && x.id != first.id
    ensures UniqueNames([first] + rest) && UniqueIds([first] + rest)
  {
  }

  // -- whole runs -------------------------------------------------------------------------------

  datatype Action =
    | AddSource(raw: RawSource, minted: string)
    | UpdateSource(name: string, raw: RawSource, minted: string)
    | DeleteSource(name: string)

  /** One call's lock-held edit; a call that is refused changes nothing. */
  ghost function Step(r: Catalog, a: Action): Catalog {
    var result := match a
      case AddSource(raw, minted) => Add(r, raw, minted)
      case UpdateSource(name, raw, minted) => Update(r, name, raw, minted)
      case DeleteSource(name) => Delete(r, name);
    if result.Ok? then result.value.0 else r
  }

  ghost function RunActions(r: Catalog, actions: seq<Action>): Catalog
    decreases |actions|
  {
    if actions == [] then r else RunActions(Step(r, actions[0]), actions[1..])
  }

  /** Added sources bring no id of their own, and minted ids are never repeated. */
  ghost predicate MintsFreely(r: Catalog, actions: seq<Action>)
    decreases |actions|
  {
    actions != [] ==>
      && (actions[0].AddSource? ==> !HasId(actions[0].raw) && IdFree(r.sources, actions[0].minted))
      && MintsFreely(Step(r, actions[0]), actions[1..])
  }

  lemma {:induction false} RunKeepsInv(r: Catalog, defaults: SourceDefaults, actions: seq<Action>)
    requires Inv(r, defaults) && MintsFreely(r, actions)
    ensures Inv(RunActions(r, actions), defaults)
    decreases |actions|
  {
    if actions != [] {
      StepKeepsInv(r, defaults, actions[0]);
      RunKeepsInv(Step(r, actions[0]), defaults, actions[1..]);
    }
  }

  /** After every interleaving of edits, names and ids are unique, and a reload writes
      nothing and gives back the in-memory sources with their ids. */
  lemma EveryRunReloads(r: Catalog, defaults: SourceDefaults, actions: seq<Action>, mint: string -> string)
    requires Inv(r, defaults) && MintsFreely(r, actions)
    ensures var r' := RunActions(r, actions);
      && UniqueNames(r'.sources) && UniqueIds(r'.sources)
      && Load(r'.files, defaults, mint).Ok?
      && Load(r'.files, defaults, mint).value.1 == r'.files
      && multiset(Load(r'.files, defaults, mint).value.0) == multiset(r'.sources)
  {
    RunKeepsInv(r, defaults, actions);
    ReloadIsPermutation(RunActions(r, actions), defaults, mint);
  }

  lemma StepKeepsInv(r: Catalog, defaults: SourceDefaults, a: Action)
    requires Inv(r, defaults)
    requires a.AddSource? ==> !HasId(a.raw) && IdFree(r.sources, a.minted)
    ensures Inv(Step(r, a), defaults)
  {
    match a
    case AddSource(raw, minted) =>
      if Add(r, raw, minted).Ok? { AddKeepsInvIff(r, defaults, raw, minted); }
    case UpdateSource(name, raw, minted) =>
      if Update(r, name, raw, minted).Ok? { UpdateKeepsInv(r, defaults, name, raw, minted); }
    case DeleteSource(name) =>
      if Delete(r, name).Ok? { DeleteKeepsInv(r, defaults, name); }
  }

  // -- starting up -------------------------------------------------------------------------------

  /** A successful load gives every source file a name of its own, and the list holds
      exactly the sources those files build. */
  lemma {:induction false} LoadedNamesDistinct(names: seq<string>, files: Files, build: Builder, seen: set<string>)
    requires NoDuplicates(names) && LoadFrom(names, files, build, seen).Ok?
    requires forall f :: f in names && IsYaml(f) ==> f in files && files[f].Doc? && build(f, files[f].raw).Ok?
    ensures forall f :: f in names && IsYaml(f) ==> build(f, files[f].raw).value.name !in seen
    ensures forall f, g | f in names && IsYaml(f) && g in names && IsYaml(g) ::
      build(f, files[f].raw).value.name == build(g, files[g].raw).value.name ==> f == g
    ensures var list := LoadFrom(names, files, build, seen).value.0;
      && UniqueNames(list)
      && (forall s :: s in list ==> s.name !in seen)
      && (forall s :: s in list <==> exists f :: f in names && IsYaml(f) && build(f, files[f].raw) == Ok(s))
  {
    if names != [] {
      var f := names[0];
      assert names == [f] + names[1..];
      if IsYaml(f) {
        var s := build(f, files[f].raw).value;
        var files' := Migrated(files, f, files[f].raw, s);
        assert forall g :: g in names[1..] && g in files ==> files'[g] == files[g];
        LoadedNamesDistinct(names[1..], files', build, seen + {s.name});
        var list := LoadFrom(names[1..], files', build, seen + {s.name}).value.0;
        forall i | 0 <= i < |list| ensures list[i].name != s.name {
          assert list[i] in list;
        }
      } else {
        LoadedNamesDistinct(names[1..], files, build, seen);
      }
    }
  }

  /** The id that loading gives the source in a file. */
  function IdGiven(files: Files, mint: string -> string, f: string): string
    requires f in files && files[f].Doc?
  {
    if HasId(files[f].raw) then files[f].raw.id.value else mint(f)
  }

  /** No two source files bring one id, and the ids minted for the others are new. */
  ghost predicate IdsApart(files: Files, mint: string -> string) {
    forall f, g | Source(files, f) && Source(files, g) && files[f].Doc? && files[g].Doc? ::
      IdGiven(files, mint, f) == IdGiven(files, mint, g) ==> f == g
  }

  lemma LoadedIdsApart(files: Files, defaults: SourceDefaults, mint: string -> string)
    requires Load(files, defaults, mint).Ok?
    ensures UniqueIds(Load(files, defaults, mint).value.0) <==> IdsApart(files, mint)
  {
    forall f | Source(files, f) && files[f].Doc? && BuilderFor(defaults, mint)(f, files[f].raw).Ok?
      ensures BuilderFor(defaults, mint)(f, files[f].raw).value.id == IdGiven(files, mint, f)
    {
      BuildIsValid(files[f].raw, defaults, mint(f), mint(f));
    }
    ListFollowsFiles(Sorted(files.Keys), files, BuilderFor(defaults, mint), mint);
  }

  lemma ListFollowsFiles(names: seq<string>, files: Files, build: Builder, mint: string -> string)
    requires NoDuplicates(names) && forall f :: f in names <==> f in files
    requires LoadFrom(names, files, build, {}).Ok?
    requires forall f :: Source(files, f) && files[f].Doc? && build(f, files[f].raw).Ok? ==>
      build(f, files[f].raw).value.id == IdGiven(files, mint, f)
    ensures UniqueIds(LoadFrom(names, files, build, {}).value.0) <==> IdsApart(files, mint)
  {
    var list := LoadFrom(names, files, build, {}).value.0;
    LoadSettles(names, files, build, {});
    LoadedNamesDistinct(names, files, build, {});
    if UniqueIds(list) {
      forall f, g | Source(files, f) && Source(files, g) && IdGiven(files, mint, f) == IdGiven(files, mint, g)
        ensures f == g
      {
        assert f in names && g in names;
        SameIdSameSource(list, build(f, files[f].raw).value, build(g, files[g].raw).value);
      }
    }
    if IdsApart(files, mint) {
      forall i, j | 0 <= i < j < |list| ensures list[i].id != list[j].id {
        assert list[i] in list && list[j] in list;
        var f :| f in names && IsYaml(f) && build(f, files[f].raw) == Ok(list[i]);
        var g :| g in names && IsYaml(g) && build(g, files[g].raw) == Ok(list[j]);
        assert Source(files, f) && Source(files, g);
      }
    }
  }

  lemma SameIdSameSource(list: seq<SourceConfig>, s: SourceConfig, t: SourceConfig)
    requires UniqueIds(list) && s in list && t in list && s.id == t.id
    ensures s == t
  {
  }

  /** A directory that loads starts the registry in its invariant exactly when no source
      file has an empty id and the files' ids, given or minted, are all different.  (Loading
      refuses a repeated name, but not a repeated id.) */
  lemma StartEstablishesInvIff(files: Files, defaults: SourceDefaults, mint: string -> string)
    requires GoodMint(mint) && Load(files, defaults, mint).Ok?
    ensures var (list, files') := Load(files, defaults, mint).value;
      Inv(Catalog(list, files'), defaults) <==> NoEmptyIds(files) && IdsApart(files, mint)
  {
    var (list, files') := Load(files, defaults, mint).value;
    LoadedIdsApart(files, defaults, mint);
    if NoEmptyIds(files) && UniqueIds(list) {
      StartEstablishesInv(files, defaults, mint);
    }
    if Inv(Catalog(list, files'), defaults) {
      LoadSettles(Sorted(files.Keys), files, BuilderFor(defaults, mint), {});
      forall f | f in files && IsYaml(f) && files[f].Doc? ensures files[f].raw.id != Some("") {
        assert f in Sorted(files.Keys) && Source(files', f) && Readable(files'[f], ReaderFor(defaults));
      }
    }
  }

  lemma StartEstablishesInv(files: Files, defaults: SourceDefaults, mint: string -> string)
    requires GoodMint(mint) && NoEmptyIds(files) && Load(files, defaults, mint).Ok?
    requires UniqueIds(Load(files, defaults, mint).value.0)
    ensures var (list, files') := Load(files, defaults, mint).value; Inv(Catalog(list, files'), defaults)
  {
    var names, build, read := Sorted(files.Keys), BuilderFor(defaults, mint), ReaderFor(defaults);
    var (list, files') := Load(files, defaults, mint).value;
    LoadSettles(names, files, build, {});
    LoadKeepsOthers(names, files, build, {});
    LoadedNamesDistinct(names, files, build, {});
    forall f | Source(files', f)
      ensures Readable(files'[f], read) && read(files'[f].raw) == build(f, files[f].raw)
    {
      assert f in names;
      SettledReadable(defaults, mint, f, files[f]);
    }
    forall s ensures s in list <==> Holds(files', read, s) {
      if s in list {
        var f :| f in names && IsYaml(f) && build(f, files[f].raw) == Ok(s);
        assert Source(files', f);
      }
    }
  }

  /** Two source files that bring the same id: they load, and the registry starts with one
      id twice. */
  lemma TwoFilesOneId(defaults: SourceDefaults, mint: string -> string, s: SourceConfig, t: SourceConfig)
    returns (list: seq<SourceConfig>)
    requires s.Valid() && t.Valid() && s.name != t.name && s.id == t.id != ""
    ensures var files := map["a.yaml" := Doc(Dump(s)), "b.yaml" := Doc(Dump(t))];
      && Load(files, defaults, mint) == Ok((list, files))
      && s in list && t in list && !Inv(Catalog(list, files), defaults)
  {
    var files := map["a.yaml" := Doc(Dump(s)), "b.yaml" := Doc(Dump(t))];
    DumpReadable(defaults, s);
    DumpReadable(defaults, t);
    TwoFilesGood(ReaderFor(defaults), "a.yaml", s, "b.yaml", t);
    list := LoadGood(files, defaults, mint);
    NotUniqueIds(Catalog(list, files), defaults, s, t);
  }

  lemma TwoFilesGood(read: Reader, f: string, s: SourceConfig, g: string, t: SourceConfig)
    requires f != g && IsYaml(f) && IsYaml(g) && s.name != t.name
    requires Readable(Doc(Dump(s)), read) && read(Dump(s)) == Ok(s)
    requires Readable(Doc(Dump(t)), read) && read(Dump(t)) == Ok(t)
    ensures var files := map[f := Doc(Dump(s)), g := Doc(Dump(t))];
      Good(files, read) && Holds(files, read, s) && Holds(files, read, t)
  {
    var files := map[f := Doc(Dump(s)), g := Doc(Dump(t))];
    assert Source(files, f) && Source(files, g);
  }

  lemma NotUniqueIds(r: Catalog, defaults: SourceDefaults, s: SourceConfig, t: SourceConfig)
    requires s in r.sources && t in r.sources && s != t && s.id == t.id
    ensures !Inv(r, defaults)
  {
    if UniqueIds(r.sources) { SameIdSameSource(r.sources, s, t); }
  }

  /** Such inputs exist: two cameras, `a` and `b`, with the id `x`. */
  lemma OneIdTwice(defaults: SourceDefaults, mint: string -> string)
    ensures var s, t := Bare("a", "x"), Bare("b", "x");
      && (exists r :: Inv(r, defaults) && Add(r, Dump(t), "y").Ok? && !Inv(Add(r, Dump(t), "y").value.0, defaults))
      && (exists files :: Load(files, defaults, mint).Ok? &&
            !Inv(Catalog(Load(files, defaults, mint).value.0, files), defaults))
  {
    var s, t := Bare("a", "x"), Bare("b", "x");
    assert s.Valid() && t.Valid();
    var r := TakenIdAccepted(defaults, s, t, "y");
    var list := TwoFilesOneId(defaults, mint, s, t);
  }

  lemma SettledReadable(defaults: SourceDefaults, mint: string -> string, f: string, body: FileBody)
    requires GoodMint(mint) && body.Doc? && body.raw.id != Some("") && BuilderFor(defaults, mint)(f, body.raw).Ok?
    ensures var settled := Settled(BuilderFor(defaults, mint), f, body);
      && Readable(Doc(settled), ReaderFor(defaults))
      && ReaderFor(defaults)(settled) == BuilderFor(defaults, mint)(f, body.raw)
  {
    BuildIsValid(body.raw, defaults, mint(f), "");
    if body.raw.id.None? {
      DumpReadable(defaults, Build(body.raw, defaults, mint(f)).value);
    }
  }

  // -- crashing in the middle of an edit --------------------------------------------------------

  /** `mkstemp` with the prefix `.source-` and no suffix. */
  predicate TempName(file: string) {
    |file| >= 8 && file[..8] == ".source-" && '.' !in file[8..]
  }

  /** What a crash inside an atomic write can leave: the old directory, the old directory
      with a temporary file in any state, or the finished replacement. */
  ghost predicate CrashedWrite(files: Files, path: string, body: FileBody, left: Files) {
    || left == files
    || (exists tmp, content :: LeftTemp(files, tmp, content, left))
    || left == files[path := body]
  }

  ghost predicate CrashedSave(files: Files, s: SourceConfig, left: Files) {
    CrashedWrite(files, SavePath(files, s.name), Doc(Dump(s)), left)
  }

  predicate LeftTemp(files: Files, tmp: string, body: FileBody, left: Files) {
    TempName(tmp) && tmp !in files && left == files[tmp := body]
  }

  lemma TempIsNotYaml(file: string)
    requires TempName(file)
    ensures !IsYaml(file)
  {
    forall i | 1 <= i < |file| ensures file[i] != '.' {
      if i < 8 {
        assert file[i] == file[..8][i];
      } else {
        assert file[i] == file[8..][i - 8];
      }
    }
    if |file| >= 5 { assert file[|file| - 5..][0] == file[|file| - 5]; }
  }

  lemma TempInvisible(files: Files, read: Reader, tmp: string, body: FileBody)
    requires Good(files, read) && TempName(tmp) && tmp !in files
    ensures Good(files[tmp := body], read)
    ensures forall x :: Holds(files[tmp := body], read, x) <==> Holds(files, read, x)
  {
    TempIsNotYaml(tmp);
    var files' := files[tmp := body];
    forall f ensures Source(files', f) <==> Source(files, f) {}
    forall x | Holds(files, read, x) ensures Holds(files', read, x) {
      var f :| Source(files, f) && files[f].Doc? && read(files[f].raw) == Ok(x);
      assert Source(files', f);
    }
  }

  lemma CrashedSaveReloads(files: Files, defaults: SourceDefaults, s: SourceConfig, left: Files, mint: string -> string)
    returns (list: seq<SourceConfig>)
    requires Good(files, ReaderFor(defaults)) && s.Valid() && s.id != "" && CrashedSave(files, s, left)
    ensures Load(left, defaults, mint) == Ok((list, left)) && UniqueNames(list)
    ensures left != Save(files, s) ==> forall x :: x in list <==> Holds(files, ReaderFor(defaults), x)
    ensures left == Save(files, s) ==>
      forall x :: x in list <==> (x == s || (Holds(files, ReaderFor(defaults), x) && x.name != s.name))
  {
    var read := ReaderFor(defaults);
    DumpReadable(defaults, s);
    SaveReplaces(files, read, s);
    if left != Save(files, s) && left != files {
      var tmp, content :| LeftTemp(files, tmp, content, left);
      TempInvisible(files, read, tmp, content);
    }
    list := LoadGood(left, defaults, mint);
  }

  ghost predicate SameSources(list: seq<SourceConfig>, sources: seq<SourceConfig>) {
    forall x :: x in list <==> x in sources
  }

  /** Wherever adding crashes, a reload gives the old sources or the old ones and the new one. */
  lemma AddCrashSafe(r: Catalog, defaults: SourceDefaults, raw: RawSource, minted: string,
                     left: Files, mint: string -> string) returns (list: seq<SourceConfig>)
    requires Inv(r, defaults) && Add(r, raw, minted).Ok? && minted != ""
    requires CrashedSave(r.files, Add(r, raw, minted).value.1, left)
    ensures Load(left, defaults, mint) == Ok((list, left)) && UniqueNames(list)
    ensures SameSources(list, r.sources) || SameSources(list, Add(r, raw, minted).value.0.sources)
  {
    var s := Add(r, raw, minted).value.1;
    BuildIsValid(raw, NO_DEFAULTS, minted, minted);
    list := CrashedSaveReloads(r.files, defaults, s, left, mint);
    forall x | x in r.sources ensures x.name != s.name {
      var i :| 0 <= i < |r.sources| && r.sources[i] == x;
    }
  }

  ghost predicate CrashedUpdate(r: Catalog, name: string, raw: RawSource, minted: string, left: Files)
    requires Update(r, name, raw, minted).Ok?
  {
    var (r', s) := Update(r, name, raw, minted).value;
    CrashedSave(r.files, s, left) || left == r'.files
  }

  /** Wherever an edit or rename crashes, a reload succeeds with every other source
      intact and the edited source in its old or its new version; in both only
      between the two steps of a rename, which then share one id. */
  lemma UpdateCrashSafe(r: Catalog, defaults: SourceDefaults, name: string, raw: RawSource, minted: string,
                        left: Files, mint: string -> string) returns (list: seq<SourceConfig>)
    requires Inv(r, defaults) && Update(r, name, raw, minted).Ok? && CrashedUpdate(r, name, raw, minted, left)
    ensures Load(left, defaults, mint) == Ok((list, left)) && UniqueNames(list)
    ensures var (r', s) := Update(r, name, raw, minted).value;
      || SameSources(list, r.sources)
      || SameSources(list, r'.sources)
      || (s.name != name && left == Save(r.files, s) && SameSources(list, r.sources + [s]))
  {
    var (r', s) := Update(r, name, raw, minted).value;
    UpdateOutcome(r, defaults, name, raw, minted);
    list := CrashCases(r, r', defaults, s, s.name != name, left, mint);
  }

  lemma CrashCases(r: Catalog, r': Catalog, defaults: SourceDefaults, s: SourceConfig, renamed: bool,
                   left: Files, mint: string -> string) returns (list: seq<SourceConfig>)
    requires Inv(r, defaults) && Good(r'.files, ReaderFor(defaults)) && s.Valid() && s.id != ""
    requires forall x :: x in r'.sources <==> Holds(r'.files, ReaderFor(defaults), x)
    requires !renamed ==> forall x :: x in r'.sources <==> (x == s || (x in r.sources && x.name != s.name))
    requires renamed ==> forall x :: x in r.sources ==> x.name != s.name
    requires CrashedSave(r.files, s, left) || left == r'.files
    ensures Load(left, defaults, mint) == Ok((list, left)) && UniqueNames(list)
    ensures SameSources(list, r.sources) || SameSources(list, r'.sources) ||
      (renamed && left == Save(r.files, s) && SameSources(list, r.sources + [s]))
  {
    if left == r'.files {
      list := LoadGood(left, defaults, mint);
    } else {
      list := CrashedSaveReloads(r.files, defaults, s, left, mint);
    }
  }

  /** What `UpdateKeepsInv` and the name check say about the lists. */
  lemma UpdateOutcome(r: Catalog, defaults: SourceDefaults, name: string, raw: RawSource, minted: string)
    requires Inv(r, defaults) && Update(r, name, raw, minted).Ok?
    ensures var (r', s) := Update(r, name, raw, minted).value;
      && Good(r'.files, ReaderFor(defaults)) && s.Valid() && s.id != ""
      && (forall x :: x in r'.sources <==> Holds(r'.files, ReaderFor(defaults), x))
      && (s.name == name ==> forall x :: x in r'.sources <==> (x == s || (x in r.sources && x.name != s.name)))
      && (s.name != name ==> forall x :: x in r.sources ==> x.name != s.name)
  {
    var (r', s) := Update(r, name, raw, minted).value;
    UpdateKeepsInv(r, defaults, name, raw, minted);
    assert s in r'.sources;
    HeldIsValid(r'.files, defaults, s);
    RenameTarget(r, name, raw, minted);
  }

  lemma RenameTarget(r: Catalog, name: string, raw: RawSource, minted: string)
    requires Update(r, name, raw, minted).Ok?
    ensures var s := Update(r, name, raw, minted).value.1;
      s.name != name ==> forall x :: x in r.sources ==> x.name != s.name
  {
    var s := Update(r, name, raw, minted).value.1;
    if s.name != name {
      assert !HasName(r.sources, s.name);
      forall x | x in r.sources ensures x.name != s.name {
        var i :| 0 <= i < |r.sources| && r.sources[i] == x;
      }
    }
  }

  /** Deleting is one file removal: a crash leaves it before or after. */
  lemma DeleteCrashSafe(r: Catalog, defaults: SourceDefaults, name: string, left: Files, mint: string -> string)
    returns (list: seq<SourceConfig>)
    requires Inv(r, defaults) && Delete(r, name).Ok?
    requires left == r.files || left == Delete(r, name).value.0.files
    ensures Load(left, defaults, mint) == Ok((list, left))
    ensures SameSources(list, if left == r.files then r.sources else Delete(r, name).value.0.sources)
  {
    DeleteKeepsInv(r, defaults, name);
    list := LoadGood(left, defaults, mint);
  }
}
