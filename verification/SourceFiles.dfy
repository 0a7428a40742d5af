/** The sources directory as the program works on it: files are listed, searched by
    content, written through a temporary file, and removed. */
module SourceFiles {
  import opened Util
  import opened Sources
  import opened Directory
  import opened Registry

  class SourceDirectory {
    var exists_: bool
    var files: Files

    /** Every state the files have been in; a crash leaves the last one reached. */
    ghost var history: seq<Files>

    ghost predicate Valid()
      reads this
    {
      (!exists_ ==> files == map[]) && history != [] && Last(history) == files
    }

    constructor (exists_: bool, files: Files)
      requires !exists_ ==> files == map[]
      ensures Valid() && this.exists_ == exists_ && this.files == files
    {
      this.exists_, this.files := exists_, files;
      history := [files];
    }

    /** One file-system call: the files go from one state to the next. */
    method Become(next: Files)
      modifies this`files, this`history
      ensures files == next && history == old(history) + [next]
    {
      files, history := next, history + [next];
    }

    /** `os.listdir`, in no particular order. */
    method ListDir() returns (names: seq<string>)
      ensures NoDuplicates(names) && forall n :: n in names <==> n in files
    {
      names := [];
      var rest := files.Keys;
      while rest != {}
        invariant NoDuplicates(names) && rest <= files.Keys
        invariant forall n :: n in names <==> n in files.Keys - rest
        decreases rest
      {
        var n :| n in rest;
        assert n !in names;
        names, rest := names + [n], rest - {n};
      }
    }

    /** `sorted(os.listdir(...))` */
    method ListSorted() returns (names: seq<string>)
      ensures names == Sorted(files.Keys)
    {
      names := [];
      var rest := files.Keys;
      while rest != {}
        invariant names + Sorted(rest) == Sorted(files.Keys)
        decreases rest
      {
        HasLeast(rest);
        var least :| least in rest && forall n :: n in rest ==> Before(least, n);
        SortedMoves(names, rest, least);
        names, rest := names + [least], rest - {least};
      }
    }

    /** `_find_source_path`: the first file found whose content has the name.  A file
        that does not parse stops the search. */
    method FindSourcePath(name: string) returns (r: Result<Option<string>, Error>)
      requires Valid()
      ensures r.Ok? && r.value.Some? ==> Names(files, r.value.value, name)
      ensures r.Ok? && r.value.None? ==> forall f :: !Names(files, f, name)
      ensures r.Err? ==> exists f :: f in files && IsYaml(f) && files[f].Junk?
    {
      if !exists_ {
        return Ok(None);
      }
      var names := ListDir();
      for i := 0 to |names|
        invariant forall j :: 0 <= j < i ==> !Names(files, names[j], name)
      {
        if IsYaml(names[i]) {
          if files[names[i]].Junk? {
            return Err(Unreadable(names[i]));
          }
          if files[names[i]].raw.name == Some(name) {
            return Ok(Some(names[i]));
          }
        }
      }
      r := Ok(None);
    }

    /** `_new_source_path`: try `slug.yaml`, `slug-2.yaml`, ... until one is free. */
    method NewSourcePath(name: string) returns (path: string)
      ensures path == NewPath(files, name)
      ensures path !in files
    {
      var slug := Slugify(name);
      path := slug + ".yaml";
      var suffix := 2;
      while path in files
        invariant suffix >= 2 && path == Candidate(slug, suffix - 1)
        invariant FirstFree(slug, 1, files.Keys) == FirstFree(slug, suffix - 1, files.Keys)
        decreases |Taken(slug, suffix - 1, files.Keys)|
      {
        TakenShrinks(slug, suffix - 1, files.Keys);
        path := slug + ("-" + Digits(suffix)) + ".yaml";
        suffix := suffix + 1;
      }
    }

    /** `_atomic_write`: a temporary file appears, is filled, and takes the target's name.
        The target itself is never half written, whichever step is the last. */
    method AtomicWrite(path: string, body: FileBody, tmp: string)
      requires Valid() && TempName(tmp) && tmp !in files && tmp != path
      modifies this
      ensures Valid() && exists_ && files == old(files)[path := body]
      ensures old(history) < history
      ensures forall k :: |old(history)| <= k < |history| ==> CrashedWrite(old(files), path, body, history[k])
    {
      exists_ := true;
      Become(files[tmp := Junk]);
      assert LeftTemp(old(files), tmp, Junk, files);
      Become(files[tmp := body]);
      assert LeftTemp(old(files), tmp, body, files);
      Become((files - {tmp})[path := files[tmp]]);
      assert files == old(files)[path := body];
    }

    method SaveSource(s: SourceConfig, tmp: string) returns (r: Result<(), Error>, ghost path: string)
      requires Valid() && TempName(tmp) && tmp !in files
      modifies this
      ensures Valid() && old(history) <= history
      ensures r.Err? ==> history == old(history) && exists f :: f in files && IsYaml(f) && files[f].Junk?
      ensures r.Ok? ==> SavedAt(old(files), s, path) && files == old(files)[path := Doc(Dump(s))]
      ensures forall k :: |old(history)| <= k < |history| ==>
        CrashedWrite(old(files), path, Doc(Dump(s)), history[k])
    {
      TempIsNotYaml(tmp);
      path := "";
      var found := FindSourcePath(s.name);
      if found.Err? {
        r := Err(found.error);
        return;
      }
      var target: string;
      if found.value.Some? {
        target := found.value.value;
      } else {
        target := NewSourcePath(s.name);
      }
      path := target;
      AtomicWrite(target, Doc(Dump(s)), tmp);
      r := Ok(());
    }

    method DeleteSourceFile(name: string) returns (r: Result<(), Error>)
      requires Valid()
      modifies this`files, this`history
      ensures Valid()
      ensures history == old(history) || history == old(history) + [files]
      ensures r.Err? ==> history == old(history) && exists f :: f in files && IsYaml(f) && files[f].Junk?
      ensures r.Ok? ==>
        || (files == old(files) && forall f :: !Names(files, f, name))
        || (exists p :: Names(old(files), p, name) && files == old(files) - {p})
    {
      var found := FindSourcePath(name);
      if found.Err? {
        return Err(found.error);
      }
      if found.value.Some? {
        Become(files - {found.value.value});
      }
      r := Ok(());
    }

    /** `load_sources`: read every source file in sorted order, refuse a repeated name,
        and write back each id that had to be minted. */
    method LoadSources(defaults: SourceDefaults, mint: string -> string, tmp: string)
      returns (r: Result<seq<SourceConfig>, Error>)
      requires Valid() && TempName(tmp) && tmp !in files
      modifies this
      ensures Valid()
      ensures r.Ok? <==> Load(old(files), defaults, mint).Ok?
      ensures r.Ok? ==> Load(old(files), defaults, mint) == Ok((r.value, files))
      ensures old(history) <= history
      ensures r.Ok? ==> forall k :: |old(history)| <= k < |history| ==>
        Midway(old(files), BuilderFor(defaults, mint), history[k])
    {
      var names := ListSorted();
      if !exists_ {
        return Ok([]);
      }
      r := ReadAll(names, defaults, mint, tmp);
    }

    method ReadAll(names: seq<string>, defaults: SourceDefaults, mint: string -> string, tmp: string)
      returns (r: Result<seq<SourceConfig>, Error>)
      requires Valid() && exists_ && TempName(tmp) && tmp !in files
      requires NoDuplicates(names) && forall n :: n in names <==> n in files
      modifies this
      ensures Valid() && exists_
      ensures var loaded := LoadFrom(names, old(files), BuilderFor(defaults, mint), {});
        if r.Ok? then loaded == Ok((r.value, files)) else loaded.Err?
      ensures old(history) <= history
      ensures r.Ok? ==> forall k :: |old(history)| <= k < |history| ==>
        Midway(old(files), BuilderFor(defaults, mint), history[k])
    {
      ghost var start, n := files, |history|;
      ghost var build := BuilderFor(defaults, mint);
      ghost var loaded := LoadFrom(names, files, build, {});
      var sources: seq<SourceConfig> := [];
      var seen: set<string> := {};
      StartTracks(names, files, build, loaded);
      for i := 0 to |names|
        invariant Valid() && exists_ && files.Keys == old(files).Keys
        invariant Tracks(names[i..], files, build, seen, sources, loaded)
        invariant old(history) <= history && OnCourse(start, build, names[i..], files, history[n..], loaded)
        invariant forall f :: f in names[..i] && IsYaml(f) ==> Read(files, f, seen)
      {
        var f := names[i];
        SplitAt(names, i);
        if IsYaml(f) {
          var source := ReadSource(f, defaults, mint, tmp, seen, names[..i], names[i..], sources, loaded, start, n);
          if source.Err? {
            return Err(source.error);
          }
          sources, seen := sources + [source.value], seen + {source.value.name};
        } else {
          SkipTracks(names[i..], files, build, seen, sources, loaded);
          assert forall g :: g in names[i + 1..] ==> g in names[i..];
        }
      }
      EndTracks(names[|names|..], files, build, seen, sources, loaded);
      r := Ok(sources);
    }

    /** One round of the loading loop. */
    method ReadSource(f: string, defaults: SourceDefaults, mint: string -> string, tmp: string, seen: set<string>,
                      ghost done: seq<string>, ghost rest: seq<string>, ghost sources: seq<SourceConfig>,
                      ghost loaded: Result<(seq<SourceConfig>, Files), Error>, ghost start: Files, ghost n: nat)
      returns (r: Result<SourceConfig, Error>)
      requires Valid() && exists_ && TempName(tmp) && tmp !in files
      requires rest != [] && rest[0] == f && IsYaml(f) && f in files
      requires NoDuplicates(done + rest) && forall g :: g in files ==> g in done + rest
      requires forall g :: g in done && IsYaml(g) ==> Read(files, g, seen)
      requires Tracks(rest, files, BuilderFor(defaults, mint), seen, sources, loaded)
      requires n <= |history| && OnCourse(start, BuilderFor(defaults, mint), rest, files, history[n..], loaded)
      modifies this
      ensures Valid() && exists_ && files.Keys == old(files).Keys
      ensures r.Err? ==> loaded.Err?
      ensures r.Ok? ==>
        Tracks(rest[1..], files, BuilderFor(defaults, mint), seen + {r.value.name}, sources + [r.value], loaded)
      ensures r.Ok? ==> forall g :: g in done + [f] && IsYaml(g) ==> Read(files, g, seen + {r.value.name})
      ensures old(history) <= history
      ensures r.Ok? ==> OnCourse(start, BuilderFor(defaults, mint), rest[1..], files, history[n..], loaded)
    {
      ghost var build := BuilderFor(defaults, mint);
      BuildKeepsNames(defaults, mint);
      if files[f].Junk? {
        JunkAhead(done, rest, files, build, seen, sources, loaded);
        return Err(Unreadable(f));
      }
      var raw := files[f].raw;
      r := Build(raw, defaults, mint(f));
      assert r == build(f, raw);
      if r.Err? || r.value.name in seen {
        RefusedTracks(rest, files, build, seen, sources, loaded);
        return if r.Err? then r else Err(DuplicateName(r.value.name));
      }
      if raw.id.None? {
        ghost var before := files;
        var saved, p := SaveSource(r.value, tmp);
        if saved.Err? {
          JunkAhead(done, rest, files, build, seen, sources, loaded);
          return Err(saved.error);
        }
        assert Names(before, f, r.value.name);
        MigrationOnCourse(start, done, rest, before, build, seen, sources, loaded, r.value, p,
          old(history)[n..], history[|old(history)|..]);
        assert history[n..] == old(history)[n..] + history[|old(history)|..];
        MigrationTracks(done, rest, before, build, seen, sources, loaded, r.value, p);
      } else {
        PlainTracks(rest, files, build, seen, sources, loaded, r.value);
      }
    }
  }

  /** Where `save_source` may write: the file already holding this name, or, if there
      is none, the new path. */
  ghost predicate SavedAt(files: Files, s: SourceConfig, path: string) {
    Names(files, path, s.name) || ((forall f :: !Names(files, f, s.name)) && path == NewPath(files, s.name))
  }

  lemma SortedMoves(names: seq<string>, rest: set<string>, least: string)
    requires least in rest && forall n :: n in rest ==> Before(least, n)
    ensures names + Sorted(rest) == (names + [least]) + Sorted(rest - {least})
  {
    SortedStartsWith(rest, least);
  }

  lemma SortedStartsWith(names: set<string>, least: string)
    requires least in names && forall n :: n in names ==> Before(least, n)
    ensures Sorted(names) == [least] + Sorted(names - {least})
  {
    var first := Sorted(names)[0];
    assert first in names;
    BeforeTotal(first, least);
  }

  lemma SplitAt(names: seq<string>, i: nat)
    requires i < |names|
    ensures names[i..][0] == names[i] && names[i..][1..] == names[i + 1..]
    ensures names[..i + 1] == names[..i] + [names[i]] && names == names[..i] + names[i..]
  {
  }

  // -- loading, file by file ------------------------------------------------------------

  ghost function Joined(sources: seq<SourceConfig>, rest: Result<(seq<SourceConfig>, Files), Error>)
    : Result<(seq<SourceConfig>, Files), Error>
  {
    if rest.Err? then rest else Ok((sources + rest.value.0, rest.value.1))
  }

  /** A file already read: it parsed, and its name is among those seen. */
  ghost predicate Read(files: Files, f: string, seen: set<string>) {
    f in files && files[f].Doc? && files[f].raw.name.Some? && files[f].raw.name.value in seen
  }

  /** The loop agrees with `LoadFrom`, or the load is bound to fail: a file still to come
      repeats a name (a migration may have been written to the wrong one of two files). */
  ghost predicate Tracks(rest: seq<string>, files: Files, build: Builder, seen: set<string>,
                         sources: seq<SourceConfig>, loaded: Result<(seq<SourceConfig>, Files), Error>)
  {
    || loaded == Joined(sources, LoadFrom(rest, files, build, seen))
    || (loaded.Err? && exists g :: g in rest && IsYaml(g) && Read(files, g, seen))
  }

  ghost predicate KeepsNames(build: Builder) {
    forall f, raw :: build(f, raw).Ok? ==> raw.name == Some(build(f, raw).value.name)
  }

  lemma BuildKeepsNames(defaults: SourceDefaults, mint: string -> string)
    ensures KeepsNames(BuilderFor(defaults, mint))
  {
    forall f, raw | BuilderFor(defaults, mint)(f, raw).Ok?
      ensures raw.name == Some(BuilderFor(defaults, mint)(f, raw).value.name)
    {
      BuildIsValid(raw, defaults, mint(f), mint(f));
    }
  }

  lemma StartTracks(names: seq<string>, files: Files, build: Builder, loaded: Result<(seq<SourceConfig>, Files), Error>)
    requires loaded == LoadFrom(names, files, build, {})
    ensures Tracks(names[0..], files, build, {}, [], loaded)
  {
    assert names[0..] == names;
    if loaded.Ok? { assert [] + loaded.value.0 == loaded.value.0; }
  }

  lemma SkipTracks(rest: seq<string>, files: Files, build: Builder, seen: set<string>, sources: seq<SourceConfig>,
                   loaded: Result<(seq<SourceConfig>, Files), Error>)
    requires rest != [] && !IsYaml(rest[0]) && Tracks(rest, files, build, seen, sources, loaded)
    ensures Tracks(rest[1..], files, build, seen, sources, loaded)
  {
    assert rest == [rest[0]] + rest[1..];
  }

  lemma EndTracks(rest: seq<string>, files: Files, build: Builder, seen: set<string>, sources: seq<SourceConfig>,
                  loaded: Result<(seq<SourceConfig>, Files), Error>)
    requires rest == [] && Tracks(rest, files, build, seen, sources, loaded)
    ensures loaded == Ok((sources, files))
  {
    assert sources + [] == sources;
  }

  lemma RefusedTracks(rest: seq<string>, files: Files, build: Builder, seen: set<string>, sources: seq<SourceConfig>,
                      loaded: Result<(seq<SourceConfig>, Files), Error>)
    requires rest != [] && IsYaml(rest[0]) && rest[0] in files && files[rest[0]].Doc?
    requires build(rest[0], files[rest[0]].raw).Err? || build(rest[0], files[rest[0]].raw).value.name in seen
    requires Tracks(rest, files, build, seen, sources, loaded)
    ensures loaded.Err?
  {
  }

  lemma PlainTracks(rest: seq<string>, files: Files, build: Builder, seen: set<string>, sources: seq<SourceConfig>,
                    loaded: Result<(seq<SourceConfig>, Files), Error>, s: SourceConfig)
    requires rest != [] && IsYaml(rest[0]) && rest[0] in files && files[rest[0]].Doc? && files[rest[0]].raw.id.Some?
    requires KeepsNames(build) && build(rest[0], files[rest[0]].raw) == Ok(s) && s.name !in seen
    requires Tracks(rest, files, build, seen, sources, loaded)
    ensures Tracks(rest[1..], files, build, seen + {s.name}, sources + [s], loaded)
  {
    if loaded == Joined(sources, LoadFrom(rest, files, build, seen)) {
      JoinedStep(sources, s, LoadFrom(rest[1..], files, build, seen + {s.name}));
    } else {
      var g :| g in rest && IsYaml(g) && Read(files, g, seen);
      assert rest == [rest[0]] + rest[1..];
      assert Read(files, g, seen + {s.name});
    }
  }

  lemma JoinedStep(sources: seq<SourceConfig>, s: SourceConfig, rest: Result<(seq<SourceConfig>, Files), Error>)
    ensures Joined(sources, if rest.Err? then rest else Ok(([s] + rest.value.0, rest.value.1))) ==
      Joined(sources + [s], rest)
  {
    if rest.Ok? { assert sources + ([s] + rest.value.0) == sources + [s] + rest.value.0; }
  }

  lemma JunkAhead(done: seq<string>, rest: seq<string>, files: Files, build: Builder, seen: set<string>,
                  sources: seq<SourceConfig>, loaded: Result<(seq<SourceConfig>, Files), Error>)
    requires NoDuplicates(done + rest) && (forall f :: f in files ==> f in done + rest)
    requires forall f :: f in done && IsYaml(f) ==> Read(files, f, seen)
    requires exists f :: f in files && IsYaml(f) && files[f].Junk?
    requires Tracks(rest, files, build, seen, sources, loaded)
    ensures loaded.Err?
  {
    var f :| f in files && IsYaml(f) && files[f].Junk?;
    assert f in rest;
    NoDuplicatesTail(done, rest);
    if LoadFrom(rest, files, build, seen).Ok? { LoadSettles(rest, files, build, seen); }
  }

  lemma NoDuplicatesTail(done: seq<string>, rest: seq<string>)
    requires NoDuplicates(done + rest)
    ensures NoDuplicates(rest)
  {
    forall i, j | 0 <= i < j < |rest| ensures rest[i] != rest[j] {
      assert (done + rest)[|done| + i] == rest[i] && (done + rest)[|done| + j] == rest[j];
    }
  }

  /** Two files still to be read with one name make the load fail. */
  lemma RepeatFails(rest: seq<string>, files: Files, build: Builder, seen: set<string>, f: string, p: string)
    requires NoDuplicates(rest) && KeepsNames(build)
    requires f in rest && p in rest && f != p && IsYaml(f) && IsYaml(p) && f in files && p in files
    requires files[f].Doc? && files[p].Doc? && files[f].raw.name == files[p].raw.name
    ensures LoadFrom(rest, files, build, seen).Err?
  {
    if LoadFrom(rest, files, build, seen).Ok? {
      LoadSettles(rest, files, build, seen);
      LoadedNamesDistinct(rest, files, build, seen);
    }
  }

  lemma MigrationTracks(done: seq<string>, rest: seq<string>, files: Files, build: Builder, seen: set<string>,
                        sources: seq<SourceConfig>, loaded: Result<(seq<SourceConfig>, Files), Error>,
                        s: SourceConfig, p: string)
    requires NoDuplicates(done + rest) && (forall f :: f in files ==> f in done + rest)
    requires forall f :: f in done && IsYaml(f) ==> Read(files, f, seen)
    requires rest != [] && IsYaml(rest[0]) && rest[0] in files && files[rest[0]].Doc? && files[rest[0]].raw.id.None?
    requires KeepsNames(build) && build(rest[0], files[rest[0]].raw) == Ok(s) && s.name !in seen
    requires Names(files, p, s.name)
    requires Tracks(rest, files, build, seen, sources, loaded)
    ensures var files' := files[p := Doc(Dump(s))];
      && Tracks(rest[1..], files', build, seen + {s.name}, sources + [s], loaded)
      && files'.Keys == files.Keys
      && forall f :: f in done + [rest[0]] && IsYaml(f) ==> Read(files', f, seen + {s.name})
  {
    var f, files', seen' := rest[0], files[p := Doc(Dump(s))], seen + {s.name};
    assert rest == [f] + rest[1..];
    forall x | x in done ensures x != p {
      if IsYaml(x) { assert Read(files, x, seen); }
    }
    NoDuplicatesTail(done, rest);
    if exists g :: g in rest && IsYaml(g) && Read(files, g, seen) && loaded.Err? {
      var g :| g in rest && IsYaml(g) && Read(files, g, seen);
      assert g != f && g != p;
      assert Read(files', g, seen') && g in rest[1..];
    } else if p == f {
      JoinedStep(sources, s, LoadFrom(rest[1..], files', build, seen'));
    } else {
      RepeatFails(rest, files, build, seen, f, p);
      assert p in rest[1..] && Read(files', p, seen');
    }
  }

  // -- crashing between migrations --------------------------------------------------------

  /** A state on the way through a load: each source file is as it was, or as the load leaves it. */
  ghost predicate Midway(start: Files, build: Builder, d: Files) {
    forall f | IsYaml(f) :: (f in d <==> f in start) && (f in d ==> d[f] == start[f] || Migrates(start, build, d, f))
  }

  ghost predicate Migrates(start: Files, build: Builder, d: Files, f: string) {
    && f in d && f in start && start[f].Doc? && start[f].raw.id.None?
    && build(f, start[f].raw).Ok? && d[f] == Doc(Dump(build(f, start[f].raw).value))
  }

  /** Every state so far was midway and the files still to come are untouched, unless the load
      is bound to fail. */
  ghost predicate OnCourse(start: Files, build: Builder, rest: seq<string>, files: Files, states: seq<Files>,
                           loaded: Result<(seq<SourceConfig>, Files), Error>)
  {
    || loaded.Err?
    || (&& Midway(start, build, files)
        && (forall g :: g in rest && IsYaml(g) && g in files ==> g in start && files[g] == start[g])
        && (forall k :: 0 <= k < |states| ==> Midway(start, build, states[k])))
  }

  /** Migrating into another file of the same name dooms the load. */
  lemma WrongFileFails(done: seq<string>, rest: seq<string>, files: Files, build: Builder, seen: set<string>,
                       sources: seq<SourceConfig>, loaded: Result<(seq<SourceConfig>, Files), Error>,
                       s: SourceConfig, p: string)
    requires NoDuplicates(done + rest) && (forall f :: f in files ==> f in done + rest)
    requires forall f :: f in done && IsYaml(f) ==> Read(files, f, seen)
    requires rest != [] && IsYaml(rest[0]) && rest[0] in files && files[rest[0]].Doc? && files[rest[0]].raw.id.None?
    requires KeepsNames(build) && build(rest[0], files[rest[0]].raw) == Ok(s) && s.name !in seen
    requires Names(files, p, s.name) && p != rest[0]
    requires Tracks(rest, files, build, seen, sources, loaded)
    ensures loaded.Err?
  {
    forall x | x in done ensures x != p {
      if IsYaml(x) { assert Read(files, x, seen); }
    }
    NoDuplicatesTail(done, rest);
    RepeatFails(rest, files, build, seen, rest[0], p);
  }

  lemma CrashedMigration(start: Files, build: Builder, files: Files, f: string, s: SourceConfig, d: Files)
    requires Midway(start, build, files) && IsYaml(f) && f in files && f in start && files[f] == start[f]
    requires files[f].Doc? && files[f].raw.id.None? && build(f, files[f].raw) == Ok(s)
    requires CrashedWrite(files, f, Doc(Dump(s)), d)
    ensures Midway(start, build, d)
  {
    if d != files && d != files[f := Doc(Dump(s))] {
      var tmp, content :| LeftTemp(files, tmp, content, d);
      TempIsNotYaml(tmp);
    }
    forall g | IsYaml(g)
      ensures (g in d <==> g in start) && (g in d ==> d[g] == start[g] || Migrates(start, build, d, g))
    {
      assert g in files <==> g in start;
      if g in files { assert files[g] == start[g] || Migrates(start, build, files, g); }
    }
  }

  lemma MigrationOnCourse(start: Files, done: seq<string>, rest: seq<string>, files: Files, build: Builder,
                          seen: set<string>, sources: seq<SourceConfig>,
                          loaded: Result<(seq<SourceConfig>, Files), Error>, s: SourceConfig, p: string,
                          states: seq<Files>, more: seq<Files>)
    requires NoDuplicates(done + rest) && (forall f :: f in files ==> f in done + rest)
    requires forall f :: f in done && IsYaml(f) ==> Read(files, f, seen)
    requires rest != [] && IsYaml(rest[0]) && rest[0] in files && files[rest[0]].Doc? && files[rest[0]].raw.id.None?
    requires KeepsNames(build) && build(rest[0], files[rest[0]].raw) == Ok(s) && s.name !in seen
    requires Names(files, p, s.name)
    requires Tracks(rest, files, build, seen, sources, loaded)
    requires OnCourse(start, build, rest, files, states, loaded)
    requires forall k :: 0 <= k < |more| ==> CrashedWrite(files, p, Doc(Dump(s)), more[k])
    ensures OnCourse(start, build, rest[1..], files[p := Doc(Dump(s))], states + more, loaded)
  {
    if p != rest[0] {
      WrongFileFails(done, rest, files, build, seen, sources, loaded, s, p);
    } else if loaded.Ok? {
      forall k | 0 <= k < |more| ensures Midway(start, build, more[k]) {
        CrashedMigration(start, build, files, p, s, more[k]);
      }
      CrashedMigration(start, build, files, p, s, files[p := Doc(Dump(s))]);
      NoDuplicatesTail(done, rest);
      forall g | g in rest[1..] ensures g in rest && g != p {
        var i :| 0 <= i < |rest| - 1 && rest[1..][i] == g;
        assert rest[i + 1] == g && rest[0] != rest[i + 1];
      }
    }
  }

  /** Files that each build, under names of their own, load. */
  lemma {:induction false} LoadSucceeds(names: seq<string>, files: Files, build: Builder, seen: set<string>)
    requires NoDuplicates(names)
    requires forall f :: f in names && IsYaml(f) ==>
      f in files && files[f].Doc? && build(f, files[f].raw).Ok? && build(f, files[f].raw).value.name !in seen
    requires forall f, g | f in names && IsYaml(f) && g in names && IsYaml(g) ::
      build(f, files[f].raw).value.name == build(g, files[g].raw).value.name ==> f == g
    ensures LoadFrom(names, files, build, seen).Ok?
  {
    if names != [] {
      var f := names[0];
      assert names == [f] + names[1..];
      if IsYaml(f) {
        var s := build(f, files[f].raw).value;
        assert forall g :: g in names[1..] && g in files ==> Migrated(files, f, files[f].raw, s)[g] == files[g];
        LoadSucceeds(names[1..], Migrated(files, f, files[f].raw, s), build, seen + {s.name});
      } else {
        LoadSucceeds(names[1..], files, build, seen);
      }
    }
  }

  /** What a file midway builds: the source the load would have given, its id included unless
      it had none yet. */
  lemma MidwayBuilds(start: Files, defaults: SourceDefaults, mint: string -> string, mint': string -> string,
                     d: Files, f: string)
    requires GoodMint(mint) && IsYaml(f) && f in start && start[f].Doc?
    requires BuilderFor(defaults, mint)(f, start[f].raw).Ok? && Midway(start, BuilderFor(defaults, mint), d)
    ensures f in d && d[f].Doc? && BuilderFor(defaults, mint')(f, d[f].raw).Ok?
    ensures var s := BuilderFor(defaults, mint)(f, start[f].raw).value;
      var s' := BuilderFor(defaults, mint')(f, d[f].raw).value;
      s' == s.(id := s'.id) && (HasId(d[f].raw) ==> s' == s)
  {
    assert d[f] == start[f] || Migrates(start, BuilderFor(defaults, mint), d, f);
    BuildIsValid(start[f].raw, defaults, mint(f), mint'(f));
    if d[f] != start[f] {
      DumpRebuildsValid(Build(start[f].raw, defaults, mint(f)).value, defaults, mint'(f));
    }
  }

  /** Wherever a load that goes through is cut off, the next load goes through as well, with the
      same sources but for the ids not written yet; every id that was in a file stays. */
  lemma MidwayReloads(start: Files, defaults: SourceDefaults, mint: string -> string, mint': string -> string, d: Files)
    requires GoodMint(mint) && Load(start, defaults, mint).Ok? && Midway(start, BuilderFor(defaults, mint), d)
    ensures Load(d, defaults, mint').Ok? && UniqueNames(Load(d, defaults, mint').value.0)
    ensures forall s :: s in Load(d, defaults, mint').value.0 <==>
      exists f :: Source(d, f) && d[f].Doc? && BuilderFor(defaults, mint')(f, d[f].raw) == Ok(s)
    ensures forall f :: Source(start, f) <==> Source(d, f)
    ensures forall f :: Source(d, f) ==> Resumes(start, defaults, mint, mint', d, f)
  {
    var build, build' := BuilderFor(defaults, mint), BuilderFor(defaults, mint');
    LoadSettles(Sorted(start.Keys), start, build, {});
    LoadedNamesDistinct(Sorted(start.Keys), start, build, {});
    forall f ensures Source(start, f) <==> Source(d, f) {}
    forall f | Source(d, f) ensures Resumes(start, defaults, mint, mint', d, f) {
      assert f in Sorted(start.Keys);
      MidwayBuilds(start, defaults, mint, mint', d, f);
    }
    ResumedLoad(start, defaults, mint, mint', d);
  }

  /** The file builds the source it would have built, its id too if the file holds one. */
  ghost predicate Resumes(start: Files, defaults: SourceDefaults, mint: string -> string, mint': string -> string,
                          d: Files, f: string)
  {
    && f in start && start[f].Doc? && f in d && d[f].Doc?
    && BuilderFor(defaults, mint)(f, start[f].raw).Ok? && BuilderFor(defaults, mint')(f, d[f].raw).Ok?
    && var s := BuilderFor(defaults, mint)(f, start[f].raw).value;
       var s' := BuilderFor(defaults, mint')(f, d[f].raw).value;
       s' == s.(id := s'.id) && (HasId(d[f].raw) ==> s' == s)
  }

  lemma ResumedLoad(start: Files, defaults: SourceDefaults, mint: string -> string, mint': string -> string, d: Files)
    requires forall f :: Source(d, f) ==> Source(start, f) && Resumes(start, defaults, mint, mint', d, f)
    requires forall f, g | Source(start, f) && Source(start, g) && start[f].Doc? && start[g].Doc? ::
      BuilderFor(defaults, mint)(f, start[f].raw).Ok? && BuilderFor(defaults, mint)(g, start[g].raw).Ok? &&
      BuilderFor(defaults, mint)(f, start[f].raw).value.name == BuilderFor(defaults, mint)(g, start[g].raw).value.name
      ==> f == g
    ensures Load(d, defaults, mint').Ok? && UniqueNames(Load(d, defaults, mint').value.0)
    ensures forall s :: s in Load(d, defaults, mint').value.0 <==>
      exists f :: Source(d, f) && d[f].Doc? && BuilderFor(defaults, mint')(f, d[f].raw) == Ok(s)
  {
    var names, build' := Sorted(d.Keys), BuilderFor(defaults, mint');
    forall f | f in names && IsYaml(f) ensures Resumes(start, defaults, mint, mint', d, f) {
      assert Source(d, f);
    }
    LoadSucceeds(names, d, build', {});
    LoadedNamesDistinct(names, d, build', {});
    forall s ensures s in Load(d, defaults, mint').value.0 <==>
      exists f :: Source(d, f) && d[f].Doc? && build'(f, d[f].raw) == Ok(s)
    {
      if f :| Source(d, f) && d[f].Doc? && build'(f, d[f].raw) == Ok(s) { assert f in names; }
    }
  }
}
