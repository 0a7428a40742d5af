/** The sources directory as a value: which file backs which source, what loading it
    yields, and what saving and deleting do to it. */
module Directory {
  import opened Util
  import opened Sources

  /** A parsed source file, or anything a YAML load would not accept (for example a
      temporary file that is still being written). */
  datatype FileBody = Doc(raw: RawSource) | Junk
  type Files = map<string, FileBody>

  predicate IsYaml(file: string) {
    EndsWith(file, ".yaml")
  }

  // -- sorted listings --------------------------------------------------------------

  predicate Before(a: string, b: string) {
    a == "" || (b != "" && (a[0] < b[0] || (a[0] == b[0] && Before(a[1..], b[1..]))))
  }

  lemma {:induction false} BeforeTotal(a: string, b: string)
    ensures Before(a, b) || Before(b, a)
    ensures Before(a, b) && Before(b, a) ==> a == b
  {
    if a != "" && b != "" {
      BeforeTotal(a[1..], b[1..]);
      if a[0] == b[0] {
        assert a == [a[0]] + a[1..] && b == [b[0]] + b[1..];
      }
    }
  }

  lemma {:induction false} BeforeTransitive(a: string, b: string, c: string)
    requires Before(a, b) && Before(b, c)
    ensures Before(a, c)
  {
    if a != "" && a[0] == b[0] && b[0] == c[0] {
      BeforeTransitive(a[1..], b[1..], c[1..]);
    }
  }

  /** The order is that of the first difference, by code point; a prefix comes first. */
  lemma {:induction false} BeforeIff(a: string, b: string)
    ensures Before(a, b) <==>
      || (|a| <= |b| && a == b[..|a|])
      || exists k :: LessAt(a, b, k)
  {
    if a != "" && b != "" && a[0] == b[0] {
      BeforeIff(a[1..], b[1..]);
      SameHead(a, b);
    } else if a != "" && b != "" {
      assert a[..0] == b[..0];
      assert LessAt(a, b, 0) || LessAt(b, a, 0);
      forall k | k > 0 ensures !LessAt(a, b, k) {
        if k <= |a| && k <= |b| { assert a[..k][0] != b[..k][0]; }
      }
    }
  }

  predicate LessAt(a: string, b: string, k: int) {
    0 <= k < |a| && k < |b| && a[..k] == b[..k] && a[k] as int < b[k] as int
  }

  lemma SameHead(a: string, b: string)
    requires a != "" && b != "" && a[0] == b[0]
    ensures |a| <= |b| && a == b[..|a|] <==> |a| <= |b| && a[1..] == b[1..][..|a| - 1]
    ensures (exists k :: LessAt(a, b, k)) <==> exists k :: LessAt(a[1..], b[1..], k)
  {
    if |a| <= |b| { assert b[..|a|] == [b[0]] + b[1..][..|a| - 1] && a == [a[0]] + a[1..]; }
    forall k ensures LessAt(a[1..], b[1..], k) <==> k >= 0 && LessAt(a, b, k + 1) {
      if 0 <= k < |a| - 1 && k < |b| - 1 {
        assert a[..k + 1] == [a[0]] + a[1..][..k] && a[..k + 1][1..] == a[1..][..k];
        assert b[..k + 1] == [b[0]] + b[1..][..k] && b[..k + 1][1..] == b[1..][..k];
      }
    }
    if k :| LessAt(a, b, k) { assert LessAt(a[1..], b[1..], k - 1); }
    if k :| LessAt(a[1..], b[1..], k) { assert LessAt(a, b, k + 1); }
  }

  lemma {:induction false} LeastExists(names: set<string>) returns (least: string)
    requires names != {}
    ensures least in names && forall n :: n in names ==> Before(least, n)
  {
    var n :| n in names;
    if names == {n} {
      least := n;
      BeforeTotal(n, n);
    } else {
      var m := LeastExists(names - {n});
      BeforeTotal(m, n);
      if Before(m, n) {
        least := m;
      } else {
        least := n;
        BeforeTotal(n, n);
        forall k | k in names ensures Before(n, k) {
          if k != n { BeforeTransitive(n, m, k); }
        }
      }
    }
  }

  lemma HasLeast(names: set<string>)
    requires names != {}
    ensures exists least :: least in names && forall n :: n in names ==> Before(least, n)
  {
    var least := LeastExists(names);
  }

  /** `sorted(os.listdir(...))` */
  ghost function Sorted(names: set<string>): (s: seq<string>)
    ensures forall n :: n in s <==> n in names
    ensures NoDuplicates(s)
    ensures forall i, j :: 0 <= i < j < |s| ==> Before(s[i], s[j])
    decreases |names|
  {
    if names == {} then []
    else
      HasLeast(names);
      var least :| least in names && forall n :: n in names ==> Before(least, n);
      [least] + Sorted(names - {least})
  }

  // -- choosing a file for a new source ------------------------------------------------

  predicate SlugChar(c: char) {
    'A' <= c <= 'Z' || 'a' <= c <= 'z' || '0' <= c <= '9' || c == '_' || c == '-'
  }

  /** Each run of other characters becomes one underscore. */
  function Squeeze(name: string, inRun: bool): (r: string)
    ensures forall c :: c in r ==> SlugChar(c)
  {
    if name == "" then ""
    else if SlugChar(name[0]) then [name[0]] + Squeeze(name[1..], false)
    else if inRun then Squeeze(name[1..], true)
    else "_" + Squeeze(name[1..], true)
  }

  predicate Fringe(c: char) { c == '_' || c == '-' }

  /** `strip("_-")` */
  function Trim(s: string): (r: string)
    ensures r == "" || (!Fringe(r[0]) && !Fringe(Last(r)))
    ensures forall c :: c in r ==> c in s
    decreases |s|
  {
    if s == "" then ""
    else if Fringe(s[0]) then Trim(s[1..])
    else if Fringe(Last(s)) then Trim(Front(s))
    else s
  }

  function Slugify(name: string): (slug: string)
    ensures slug != "" && forall c :: c in slug ==> SlugChar(c)
  {
    var t := Trim(Squeeze(name, false));
    if t == "" then "source" else t
  }

  predicate Plain(name: string) {
    forall c :: c in name ==> SlugChar(c)
  }

  /** Letters, digits, underscores and hyphens stay as they are. */
  lemma {:induction false} SqueezePlain(name: string)
    requires Plain(name)
    ensures Squeeze(name, false) == name
  {
    if name != "" { SqueezePlain(name[1..]); }
  }

  /** Any number of other characters between two of these becomes one underscore. */
  lemma {:induction false} SqueezeRun(a: string, run: string, b: string)
    requires run != "" && (forall c :: c in run ==> !SlugChar(c))
    requires (a == "" || SlugChar(Last(a))) && (b == "" || SlugChar(b[0]))
    ensures Squeeze(a + run + b, false) == Squeeze(a, false) + "_" + Squeeze(b, false)
  {
    SqueezeAfter(a, false, run + b);
    assert a + run + b == a + (run + b);
    assert (run + b)[0] == run[0] && (run + b)[1..] == run[1..] + b;
    SqueezeInRun(run[1..], b);
  }

  lemma {:induction false} SqueezeAfter(a: string, inRun: bool, rest: string)
    requires a != "" ==> SlugChar(Last(a))
    ensures Squeeze(a + rest, inRun) ==
      Squeeze(a, inRun) + Squeeze(rest, if a == "" then inRun else false)
  {
    if a == "" {
      assert a + rest == rest;
    } else {
      var inRun' := !SlugChar(a[0]);
      var x, y := Squeeze(a[1..], inRun'), Squeeze(rest, if a[1..] == "" then inRun' else false);
      assert (a + rest)[0] == a[0] && (a + rest)[1..] == a[1..] + rest;
      SqueezeAfter(a[1..], inRun', rest);
      Associates([a[0]], x, y);
      Associates("_", x, y);
    }
  }

  lemma {:induction false} SqueezeInRun(run: string, b: string)
    requires (forall c :: c in run ==> !SlugChar(c)) && (b == "" || SlugChar(b[0]))
    ensures Squeeze(run + b, true) == Squeeze(b, false)
  {
    if run == "" {
      assert run + b == b;
    } else {
      assert (run + b)[0] == run[0] && (run + b)[1..] == run[1..] + b;
      SqueezeInRun(run[1..], b);
    }
  }

  lemma {:induction false} TrimCore(left: string, core: string, right: string)
    requires (forall c :: c in left + right ==> Fringe(c))
    requires core != "" && !Fringe(core[0]) && !Fringe(Last(core))
    ensures Trim(left + core + right) == core
    decreases |left| + |right|
  {
    var s := left + core + right;
    if left != "" {
      assert s[0] == left[0] && s[1..] == left[1..] + core + right;
      TrimCore(left[1..], core, right);
    } else {
      assert s[0] == core[0];
      if right != "" {
        assert Last(s) == Last(right) && Front(s) == left + core + Front(right);
        TrimCore(left, core, Front(right));
      } else {
        assert s == core;
      }
    }
  }

  /** A slug is the name with each run of other characters turned into an underscore, less any
      underscores and hyphens at its ends; if nothing is left, it is `source`. */
  lemma SlugIsCore(name: string, left: string, core: string, right: string)
    requires Squeeze(name, false) == left + core + right
    requires (forall c :: c in left + right ==> Fringe(c))
    requires core == "" || (!Fringe(core[0]) && !Fringe(Last(core)))
    ensures Slugify(name) == if core == "" then "source" else core
  {
    if core != "" {
      TrimCore(left, core, right);
    } else {
      forall c | c in left + core + right ensures Fringe(c) {}
      assert Trim(left + core + right) == "";
    }
  }

  /** A name that could be a slug is its own. */
  lemma SlugOfPlain(name: string)
    requires Plain(name) && name != "" && !Fringe(name[0]) && !Fringe(Last(name))
    ensures Slugify(name) == name
  {
    SqueezePlain(name);
    SlugIsCore(name, "", name, "");
  }

  /** The k-th name tried for a slug: `slug.yaml`, `slug-2.yaml`, `slug-3.yaml`, ... */
  function Candidate(slug: string, k: nat): string
    requires k >= 1
  {
    if k == 1 then slug + ".yaml" else slug + ("-" + Digits(k)) + ".yaml"
  }

  lemma CandidatesDistinct(slug: string, j: nat, k: nat)
    requires 1 <= j && 1 <= k && Candidate(slug, j) == Candidate(slug, k)
    ensures j == k
  {
    var a, b := Candidate(slug, j), Candidate(slug, k);
    assert a[|slug|] == if j == 1 then '.' else '-';
    assert b[|slug|] == if k == 1 then '.' else '-';
    if j > 1 && k > 1 {
      assert a[|slug| + 1..|a| - 5] == Digits(j);
      assert b[|slug| + 1..|b| - 5] == Digits(k);
      DigitsInjective(j, k);
    }
  }

  ghost function Taken(slug: string, k: nat, keys: set<string>): set<string>
    requires k >= 1
  {
    set x | x in keys && exists j :: j >= k && Candidate(slug, j) == x
  }

  lemma TakenShrinks(slug: string, k: nat, keys: set<string>)
    requires k >= 1 && Candidate(slug, k) in keys
    ensures |Taken(slug, k + 1, keys)| < |Taken(slug, k, keys)|
  {
    assert Candidate(slug, k) in Taken(slug, k, keys);
    forall j | j >= k + 1 ensures Candidate(slug, j) != Candidate(slug, k) {
      if Candidate(slug, j) == Candidate(slug, k) { CandidatesDistinct(slug, j, k); }
    }
    assert Taken(slug, k + 1, keys) <= Taken(slug, k, keys) - {Candidate(slug, k)};
    ProperSubsetSmaller(Taken(slug, k + 1, keys), Taken(slug, k, keys) - {Candidate(slug, k)});
  }

  lemma {:induction false} ProperSubsetSmaller<T>(a: set<T>, b: set<T>)
    requires a <= b
    ensures |a| <= |b|
  {
    if a != {} {
      var x :| x in a;
      ProperSubsetSmaller(a - {x}, b - {x});
    }
  }

  /** The least number from `k` on whose name is free. */
  ghost function FirstFree(slug: string, k: nat, keys: set<string>): (r: nat)
    requires k >= 1
    ensures r >= k && Candidate(slug, r) !in keys
    ensures forall j :: k <= j < r ==> Candidate(slug, j) in keys
    decreases |Taken(slug, k, keys)|
  {
    if Candidate(slug, k) !in keys then k
    else
      TakenShrinks(slug, k, keys);
      FirstFree(slug, k + 1, keys)
  }

  ghost function NewPath(files: Files, name: string): (path: string)
    ensures path !in files && IsYaml(path)
    ensures |path| > 5 && exists k :: k >= 1 && path == Candidate(Slugify(name), k)
  {
    var k := FirstFree(Slugify(name), 1, files.Keys);
    CandidateIsYaml(Slugify(name), k);
    Candidate(Slugify(name), k)
  }

  lemma CandidateIsYaml(slug: string, k: nat)
    requires slug != "" && k >= 1
    ensures IsYaml(Candidate(slug, k)) && |Candidate(slug, k)| > 5
  {
    if k == 1 { EndsInSuffix(slug, ".yaml"); } else { EndsInSuffix(slug + ("-" + Digits(k)), ".yaml"); }
  }

  lemma EndsInSuffix(stem: string, suffix: string)
    ensures EndsWith(stem + suffix, suffix) && |stem + suffix| == |stem| + |suffix|
  {
  }

  /** The new file is `slug.yaml` if that is free, else the first free of `slug-2.yaml`,
      `slug-3.yaml`, ... */
  lemma NewPathIs(files: Files, name: string) returns (k: nat)
    ensures k >= 1 && NewPath(files, name) !in files
    ensures NewPath(files, name) == Slugify(name) + (if k == 1 then "" else "-" + Digits(k)) + ".yaml"
    ensures k > 1 ==> Slugify(name) + ".yaml" in files
    ensures forall j: nat :: 2 <= j < k ==> Slugify(name) + ("-" + Digits(j)) + ".yaml" in files
  {
    var slug := Slugify(name);
    k := FirstFree(slug, 1, files.Keys);
    assert slug + "" == slug;
    if k > 1 { assert Candidate(slug, 1) in files; }
    forall j: nat | 2 <= j < k ensures slug + ("-" + Digits(j)) + ".yaml" in files {
      assert Candidate(slug, j) in files.Keys;
    }
  }

  // -- reading -----------------------------------------------------------------------------

  predicate Names(files: Files, file: string, name: string) {
    IsYaml(file) && file in files && files[file].Doc? && files[file].raw.name == Some(name)
  }

  /** How the record in a file becomes a source; `BuilderFor(d, mint)` is the program's way. */
  type Builder = (string, RawSource) -> Result<SourceConfig, Error>

  /** `mint(f)` is the id minted if file `f` brings none. */
  function BuilderFor(defaults: SourceDefaults, mint: string -> string): Builder {
    (file: string, raw: RawSource) => Build(raw, defaults, mint(file))
  }

  /** A file without an `id` key is rewritten, with the id it was just given. */
  function Migrated(files: Files, file: string, raw: RawSource, s: SourceConfig): Files {
    if raw.id.None? then files[file := Doc(Dump(s))] else files
  }

  /** `load_sources` over the remaining listing. */
  function LoadFrom(names: seq<string>, files: Files, build: Builder, seen: set<string>)
    : Result<(seq<SourceConfig>, Files), Error>
  {
    if names == [] then Ok(([], files))
    else
      var f := names[0];
      if !IsYaml(f) then LoadFrom(names[1..], files, build, seen)
      else if f !in files || files[f].Junk? then Err(Unreadable(f))
      else
        var built := build(f, files[f].raw);
        if built.Err? then Err(built.error)
        else if built.value.name in seen then Err(DuplicateName(built.value.name))
        else
          var rest := LoadFrom(names[1..], Migrated(files, f, files[f].raw, built.value), build,
                               seen + {built.value.name});
          if rest.Err? then rest else Ok(([built.value] + rest.value.0, rest.value.1))
  }

  ghost function Load(files: Files, defaults: SourceDefaults, mint: string -> string)
    : Result<(seq<SourceConfig>, Files), Error>
  {
    LoadFrom(Sorted(files.Keys), files, BuilderFor(defaults, mint), {})
  }

  ghost predicate GoodMint(mint: string -> string) {
    forall f :: mint(f) != ""
  }

  // -- a second load --------------------------------------------------------------------

  /** Loading only rewrites files on the listing. */
  lemma {:induction false} LoadKeepsOthers(names: seq<string>, files: Files, build: Builder, seen: set<string>)
    requires LoadFrom(names, files, build, seen).Ok?
    ensures var out := LoadFrom(names, files, build, seen).value.1;
      out.Keys == files.Keys && forall g :: g in files && g !in names ==> out[g] == files[g]
  {
    if names != [] {
      var f := names[0];
      if IsYaml(f) {
        var s := build(f, files[f].raw).value;
        LoadKeepsOthers(names[1..], Migrated(files, f, files[f].raw, s), build, seen + {s.name});
      } else {
        LoadKeepsOthers(names[1..], files, build, seen);
      }
    }
  }

  /** What a file holds once it has been loaded. */
  function Settled(build: Builder, f: string, body: FileBody): RawSource
    requires body.Doc? && build(f, body.raw).Ok?
  {
    if body.raw.id.None? then Dump(build(f, body.raw).value) else body.raw
  }

  lemma {:induction false} LoadFromAgain(
    names: seq<string>, files: Files, build: Builder, seen: set<string>, later: Files, build': Builder)
    requires NoDuplicates(names) && LoadFrom(names, files, build, seen).Ok?
    requires forall f :: f in names && IsYaml(f) ==>
      f in LoadFrom(names, files, build, seen).value.1 &&
      f in later && later[f] == LoadFrom(names, files, build, seen).value.1[f]
    requires forall f :: f in names && IsYaml(f) && f in files && files[f].Doc? && build(f, files[f].raw).Ok? ==>
      build'(f, Settled(build, f, files[f])) == build(f, files[f].raw)
    ensures LoadFrom(names, later, build', seen) == Ok((LoadFrom(names, files, build, seen).value.0, later))
  {
    if names != [] {
      var f := names[0];
      if IsYaml(f) {
        var s := build(f, files[f].raw).value;
        var files' := Migrated(files, f, files[f].raw, s);
        LoadKeepsOthers(names[1..], files', build, seen + {s.name});
        assert later[f] == Doc(Settled(build, f, files[f]));
        LoadFromAgain(names[1..], files', build, seen + {s.name}, later, build');
      } else {
        LoadFromAgain(names[1..], files, build, seen, later, build');
      }
    }
  }

  /** If the second load reads one file differently, it returns another list. */
  lemma {:induction false} LoadFromDiffers(
    names: seq<string>, files: Files, build: Builder, seen: set<string>, later: Files, build': Builder, f: string)
    requires NoDuplicates(names) && LoadFrom(names, files, build, seen).Ok?
    requires forall g :: g in names && IsYaml(g) ==>
      g in LoadFrom(names, files, build, seen).value.1 &&
      g in later && later[g] == LoadFrom(names, files, build, seen).value.1[g]
    requires f in names && IsYaml(f) && f in files && files[f].Doc? && build(f, files[f].raw).Ok?
    requires build'(f, Settled(build, f, files[f])) != build(f, files[f].raw)
    ensures LoadFrom(names, later, build', seen).Ok? ==>
      LoadFrom(names, later, build', seen).value.0 != LoadFrom(names, files, build, seen).value.0
  {
    var g := names[0];
    var again := LoadFrom(names, later, build', seen);
    if again.Ok? {
      if !IsYaml(g) {
        LoadFromDiffers(names[1..], files, build, seen, later, build', f);
      } else {
        var s := build(g, files[g].raw).value;
        var files' := Migrated(files, g, files[g].raw, s);
        LoadKeepsOthers(names[1..], files', build, seen + {s.name});
        assert later[g] == Doc(Settled(build, g, files[g]));
        if build'(g, later[g].raw) == Ok(s) {
          LoadFromDiffers(names[1..], files', build, seen + {s.name}, later, build', f);
          assert Migrated(later, g, later[g].raw, s) == later;
          assert again.value.0[1..] == LoadFrom(names[1..], later, build', seen + {s.name}).value.0;
          assert LoadFrom(names, files, build, seen).value.0[1..] ==
            LoadFrom(names[1..], files', build, seen + {s.name}).value.0;
        } else {
          assert again.value.0[0] == build'(g, later[g].raw).value;
          assert LoadFrom(names, files, build, seen).value.0[0] == s;
        }
      }
    }
  }

  ghost predicate NoEmptyIds(files: Files) {
    forall f :: f in files && IsYaml(f) && files[f].Doc? ==> files[f].raw.id != Some("")
  }

  lemma SettledRebuilds(
    defaults: SourceDefaults, mint: string -> string, mint': string -> string, f: string, body: FileBody)
    requires GoodMint(mint) && body.Doc? && BuilderFor(defaults, mint)(f, body.raw).Ok?
    ensures var build, build' := BuilderFor(defaults, mint), BuilderFor(defaults, mint');
      && (body.raw.id != Some("") ==> build'(f, Settled(build, f, body)) == build(f, body.raw))
      && (body.raw.id == Some("") && mint(f) != mint'(f) ==> build'(f, Settled(build, f, body)) != build(f, body.raw))
  {
    BuildIsValid(body.raw, defaults, mint(f), mint'(f));
    if body.raw.id.None? {
      DumpRebuildsValid(Build(body.raw, defaults, mint(f)).value, defaults, mint'(f));
    }
  }

  /** Once a load has succeeded, every later load writes nothing and returns the same
      sources with the same ids, exactly when no source file holds an empty `id`.
      (An empty id is replaced on every load but never written back.) */
  lemma SecondLoadIsStable(files: Files, defaults: SourceDefaults, mint: string -> string)
    requires GoodMint(mint) && Load(files, defaults, mint).Ok?
    ensures var (list, files') := Load(files, defaults, mint).value;
      (forall mint' :: Load(files', defaults, mint') == Ok((list, files'))) <==> NoEmptyIds(files)
  {
    var (list, files') := Load(files, defaults, mint).value;
    LoadKeepsOthers(Sorted(files.Keys), files, BuilderFor(defaults, mint), {});
    if NoEmptyIds(files) {
      forall mint' ensures Load(files', defaults, mint') == Ok((list, files')) {
        SecondLoadSame(files, defaults, mint, mint');
      }
    } else {
      var mint' := SecondLoadOther(files, defaults, mint);
    }
  }

  lemma SecondLoadSame(files: Files, defaults: SourceDefaults, mint: string -> string, mint': string -> string)
    requires GoodMint(mint) && Load(files, defaults, mint).Ok? && NoEmptyIds(files)
    ensures var (list, files') := Load(files, defaults, mint).value;
      Load(files', defaults, mint') == Ok((list, files'))
  {
    var names, build, build' := Sorted(files.Keys), BuilderFor(defaults, mint), BuilderFor(defaults, mint');
    var files' := Load(files, defaults, mint).value.1;
    LoadKeepsOthers(names, files, build, {});
    forall f | f in names && IsYaml(f) && f in files && files[f].Doc? && build(f, files[f].raw).Ok?
      ensures build'(f, Settled(build, f, files[f])) == build(f, files[f].raw)
    {
      SettledRebuilds(defaults, mint, mint', f, files[f]);
    }
    LoadSettles(names, files, build, {});
    LoadFromAgain(names, files, build, {}, files', build');
  }

  lemma SecondLoadOther(files: Files, defaults: SourceDefaults, mint: string -> string)
    returns (mint': string -> string)
    requires GoodMint(mint) && Load(files, defaults, mint).Ok? && !NoEmptyIds(files)
    ensures Load(Load(files, defaults, mint).value.1, defaults, mint') != Load(files, defaults, mint)
  {
    var f :| f in files && IsYaml(f) && files[f].Doc? && files[f].raw.id == Some("");
    mint' := (x: string) => mint(x) + "x";
    assert |mint'(f)| == |mint(f)| + 1;
    OtherMintDiffers(files, defaults, mint, mint', f);
  }

  lemma SortedOne(file: string)
    ensures Sorted({file}) == [file]
  {
    HasLeast({file});
    assert {file} - {file} == {};
  }

  /** A source file with an empty id. */
  function EmptyIdFile(): Files {
    map["a.yaml" := Doc(Dump(Bare("a", "x")).(id := Some("")))]
  }

  /** It loads, with whatever id is minted, and is left as it was: every load gives its
      source another id. */
  lemma EmptyIdReloads(defaults: SourceDefaults, mint: string -> string)
    ensures Load(EmptyIdFile(), defaults, mint) == Ok(([Bare("a", mint("a.yaml"))], EmptyIdFile()))
  {
    var files, f, build := EmptyIdFile(), "a.yaml", BuilderFor(defaults, mint);
    SortedOne(f);
    assert files.Keys == {f} && f[1..] == ".yaml" && IsYaml(f);
    EmptyIdBuilds(defaults, mint(f));
    assert build(f, files[f].raw) == Ok(Bare("a", mint(f)));
    assert [f][1..] == [];
    assert LoadFrom([], files, build, {} + {"a"}) == Ok(([], files));
    assert LoadFrom([f], files, build, {}) == Ok(([Bare("a", mint(f))] + [], files));
    assert [Bare("a", mint(f))] + [] == [Bare("a", mint(f))];
    assert Sorted(files.Keys) == [f];
  }

  lemma EmptyIdBuilds(defaults: SourceDefaults, minted: string)
    ensures Build(Dump(Bare("a", "x")).(id := Some("")), defaults, minted) == Ok(Bare("a", minted))
  {
    DumpRebuildsValid(Bare("a", "x"), defaults, minted);
  }

  lemma OtherMintDiffers(
    files: Files, defaults: SourceDefaults, mint: string -> string, mint': string -> string, f: string)
    requires GoodMint(mint) && Load(files, defaults, mint).Ok?
    requires f in files && IsYaml(f) && files[f].Doc? && files[f].raw.id == Some("") && mint(f) != mint'(f)
    ensures Load(Load(files, defaults, mint).value.1, defaults, mint') != Load(files, defaults, mint)
  {
    var names, build := Sorted(files.Keys), BuilderFor(defaults, mint);
    LoadKeepsOthers(names, files, build, {});
    LoadSettles(names, files, build, {});
    SettledRebuilds(defaults, mint, mint', f, files[f]);
    LoadFromDiffers(names, files, build, {}, Load(files, defaults, mint).value.1, BuilderFor(defaults, mint'), f);
  }

  /** A successful load has read every listed source file, and leaves each settled. */
  lemma {:induction false} LoadSettles(names: seq<string>, files: Files, build: Builder, seen: set<string>)
    requires NoDuplicates(names) && LoadFrom(names, files, build, seen).Ok?
    ensures forall f :: f in names && IsYaml(f) ==>
      f in files && files[f].Doc? && build(f, files[f].raw).Ok? &&
      f in LoadFrom(names, files, build, seen).value.1 &&
      LoadFrom(names, files, build, seen).value.1[f] == Doc(Settled(build, f, files[f]))
  {
    if names != [] {
      var f := names[0];
      if IsYaml(f) {
        var s := build(f, files[f].raw).value;
        var files' := Migrated(files, f, files[f].raw, s);
        LoadKeepsOthers(names[1..], files', build, seen + {s.name});
        LoadSettles(names[1..], files', build, seen + {s.name});
      } else {
        LoadSettles(names[1..], files, build, seen);
      }
    }
  }
}
