/** What a source record has to say, where each field of the source it makes comes from, and
    when a request to add or edit a source is accepted: spelled out field by field. */
module SourceRules {
  import opened Util
  import opened Sources
  import opened Directory
  import opened Registry

  /** The record's value, else the default's, else the built-in one. */
  function Chosen<T>(own: Option<T>, default_: Option<T>, builtIn: T): T {
    if own.Some? then own.value else if default_.Some? then default_.value else builtIn
  }

  /** `notify_thresholds`, for which the older key `thresholds` stands in, in the record
      before in the defaults. */
  function ChosenNotify(raw: RawSource, defaults: SourceDefaults): Thresholds {
    if raw.notifyThresholds.Some? then raw.notifyThresholds.value
    else if raw.thresholds.Some? then raw.thresholds.value
    else if defaults.notifyThresholds.Some? then defaults.notifyThresholds.value
    else if defaults.thresholds.Some? then defaults.thresholds.value
    else Mapping(map[])
  }

  function ChosenDetection(raw: RawSource, defaults: SourceDefaults): Thresholds {
    Chosen(raw.detectionThresholds, defaults.detectionThresholds, Mapping(map[]))
  }

  /** The same labels with the same numbers. */
  ghost predicate SameNumbers(chosen: Thresholds, built: map<string, real>) {
    && chosen.Mapping?
    && (forall sound :: sound in chosen.entries <==> sound in built)
    && (forall sound :: sound in built ==> chosen.entries[sound] == Number(built[sound]))
  }

  /** Where every field but name and id comes from. */
  ghost predicate FieldsFrom(raw: RawSource, defaults: SourceDefaults, s: SourceConfig) {
    && raw.kind == Some(s.kind) && raw.path == Some(s.path)
    && s.listen == Chosen(raw.listen, defaults.listen, ["bark", "bow-wow", "howl", "yip"])
    && SameNumbers(ChosenNotify(raw, defaults), s.notifyThresholds)
    && SameNumbers(ChosenDetection(raw, defaults), s.detectionThresholds)
    && Number(s.minVolume) == Chosen(raw.minVolume, defaults.minVolume, Number(500.0))
    && Number(s.preCapture) == Chosen(raw.preCapture, defaults.preCapture, Number(5.0))
    && Number(s.postCapture) == Chosen(raw.postCapture, defaults.postCapture, Number(5.0))
    && s.inputArgs == (if raw.inputArgs.Some? then raw.inputArgs.value else [])
  }

  /** A label's thresholds: its notify threshold is 0.8 unless given, its detection threshold is
      its notify threshold unless given. */
  ghost predicate ThresholdsOf(raw: RawSource, defaults: SourceDefaults, s: SourceConfig, sound: string) {
    var notify, detection := ChosenNotify(raw, defaults), ChosenDetection(raw, defaults);
    && notify.Mapping? && detection.Mapping?
    && Number(s.NotifyThresholdFor(sound)) == (if sound in notify.entries then notify.entries[sound] else Number(0.8))
    && Number(s.DetectionThresholdFor(sound)) ==
         if sound in detection.entries then detection.entries[sound]
         else if sound in notify.entries then notify.entries[sound] else Number(0.8)
  }

  // -- which records make a source --------------------------------------------------------

  predicate GoodName(name: string) {
    && name != "" && !IsSpace(name[0]) && !IsSpace(name[|name| - 1])
    && forall c :: c in name ==> c != '/' && c as int >= 32
  }

  ghost predicate AllNumbers(t: Thresholds) {
    t.Mapping? && forall sound :: sound in t.entries ==> t.entries[sound].Number?
  }

  /** Positive, in order, at most one. */
  ghost predicate InOrder(notify: Thresholds, detection: Thresholds, sound: string)
    requires AllNumbers(notify) && AllNumbers(detection)
  {
    var n := if sound in notify.entries then notify.entries[sound].value else 0.8;
    var d := if sound in detection.entries then detection.entries[sound].value else n;
    0.0 < d && d <= n && n <= 1.0
  }

  /** A record that names its type and path, under some name. */
  ghost predicate GoodRecord(name: string, raw: RawSource, defaults: SourceDefaults) {
    var notify, detection := ChosenNotify(raw, defaults), ChosenDetection(raw, defaults);
    && GoodName(name)
    && raw.kind.Some? && raw.kind.value in {"rtsp", "device", "esphome_tcp"} && raw.path.Some?
    && AllNumbers(notify) && AllNumbers(detection)
    && (forall sound :: sound in Chosen(raw.listen, defaults.listen, ["bark", "bow-wow", "howl", "yip"]) ==>
          InOrder(notify, detection, sound))
    && Chosen(raw.minVolume, defaults.minVolume, Number(500.0)).Number?
    && Chosen(raw.preCapture, defaults.preCapture, Number(5.0)).Number?
    && Chosen(raw.postCapture, defaults.postCapture, Number(5.0)).Number?
  }

  lemma NameRule(name: string)
    ensures ValidName(name) <==> GoodName(name)
  {
    if ValidName(name) {
      forall c | c in name ensures c != '/' && c as int >= 32 {
        var i :| 0 <= i < |name| && name[i] == c;
      }
    }
    if GoodName(name) {
      forall i | 0 <= i < |name| ensures name[i] as int >= 32 { assert name[i] in name; }
    }
  }

  /** The choices that building makes. */
  lemma BuildChooses(raw: RawSource, defaults: SourceDefaults)
    ensures OrElse(raw.notifyThresholds, OrElse(raw.thresholds,
      OrElse(defaults.notifyThresholds, defaults.thresholds))).GetOr(Mapping(map[])) == ChosenNotify(raw, defaults)
    ensures OrElse(raw.detectionThresholds, defaults.detectionThresholds).GetOr(Mapping(map[])) ==
      ChosenDetection(raw, defaults)
  {
  }

  /** A record makes a source exactly when it has a good name and is otherwise good. */
  lemma BuildIff(raw: RawSource, defaults: SourceDefaults, minted: string)
    ensures Build(raw, defaults, minted).Ok? <==> raw.name.Some? && GoodRecord(raw.name.value, raw, defaults)
  {
    BuildChooses(raw, defaults);
    if raw.name.Some? { NameRule(raw.name.value); }
    var notify, detection := ChosenNotify(raw, defaults), ChosenDetection(raw, defaults);
    if AllNumbers(notify) && AllNumbers(detection) {
      forall sound ensures Ordered(sound, Floats(detection.entries), Floats(notify.entries)) <==>
        InOrder(notify, detection, sound) {}
    }
  }

  /** Every field of a source comes from its record, the defaults' field of the same name, or the
      built-in value, in this order. */
  lemma BuildFields(raw: RawSource, defaults: SourceDefaults, minted: string)
    requires Build(raw, defaults, minted).Ok?
    ensures var s := Build(raw, defaults, minted).value;
      && raw.name == Some(s.name)
      && s.id == (if raw.id.Some? && raw.id.value != "" then raw.id.value else minted)
      && FieldsFrom(raw, defaults, s)
  {
    BuildChooses(raw, defaults);
  }

  lemma BuildThresholds(raw: RawSource, defaults: SourceDefaults, minted: string, sound: string)
    requires Build(raw, defaults, minted).Ok?
    ensures ThresholdsOf(raw, defaults, Build(raw, defaults, minted).value, sound)
  {
    BuildFields(raw, defaults, minted);
  }

  // -- which requests are accepted, and what they store ----------------------------------------

  /** A request to add goes through exactly when it is good and its name is free; the new source
      has the request's fields, and joins the others at the end. */
  lemma AddIff(r: Catalog, raw: RawSource, minted: string)
    ensures Add(r, raw, minted).Ok? <==>
      raw.name.Some? && GoodRecord(raw.name.value, raw, NO_DEFAULTS) &&
      forall i :: 0 <= i < |r.sources| ==> r.sources[i].name != raw.name.value
    ensures Add(r, raw, minted).Ok? ==>
      var (r', s) := Add(r, raw, minted).value;
      && raw.name == Some(s.name) && FieldsFrom(raw, NO_DEFAULTS, s)
      && s.id == (if raw.id.Some? && raw.id.value != "" then raw.id.value else minted)
      && r'.sources == r.sources + [s]
  {
    BuildIff(raw, NO_DEFAULTS, minted);
    if Add(r, raw, minted).Ok? { BuildFields(raw, NO_DEFAULTS, minted); }
    if raw.name.Some? { NameTaken(r.sources, raw.name.value); }
  }

  lemma NameTaken(sources: seq<SourceConfig>, name: string)
    ensures !HasName(sources, name) <==> forall i :: 0 <= i < |sources| ==> sources[i].name != name
  {
  }

  /** A request to edit goes through exactly when the source exists, the request is good, and a
      new name is free; the edited source takes the first such source's place, keeps its id, and
      has the request's fields, with built-in values for those the request leaves out. */
  lemma UpdateIff(r: Catalog, name: string, raw: RawSource, minted: string)
    ensures var name' := if raw.name.Some? then raw.name.value else name;
      Update(r, name, raw, minted).Ok? <==>
        && (exists i :: 0 <= i < |r.sources| && r.sources[i].name == name)
        && GoodRecord(name', raw, NO_DEFAULTS)
        && (name' != name ==> forall i :: 0 <= i < |r.sources| ==> r.sources[i].name != name')
    ensures Update(r, name, raw, minted).Ok? ==>
      var (r', s) := Update(r, name, raw, minted).value;
      && s.name == (if raw.name.Some? then raw.name.value else name) && FieldsFrom(raw, NO_DEFAULTS, s)
      && exists i :: InPlaceOf(r.sources, i, name, minted, r'.sources, s)
  {
    var name' := if raw.name.Some? then raw.name.value else name;
    NameTaken(r.sources, name');
    if HasName(r.sources, name) {
      var i := IndexOf(r.sources, name);
      var merged := Merged(raw, name, r.sources[i].id);
      BuildIff(merged, NO_DEFAULTS, minted);
      MergedKeeps(raw, name, r.sources[i].id);
      if Update(r, name, raw, minted).Ok? {
        BuildFields(merged, NO_DEFAULTS, minted);
        var (r', s) := Update(r, name, raw, minted).value;
        SameFields(raw, merged, s);
        assert InPlaceOf(r.sources, i, name, minted, r'.sources, s);
      }
    }
  }

  /** `s` stands where the source of that name stood, with its id (or a minted one for an empty id). */
  ghost predicate InPlaceOf(before: seq<SourceConfig>, i: int, name: string, minted: string,
                            after: seq<SourceConfig>, s: SourceConfig)
  {
    && 0 <= i < |before| && before[i].name == name && after == before[i := s]
    && s.id == if before[i].id != "" then before[i].id else minted
  }

  lemma EditFields(edit: Result<(Catalog, SourceConfig), Error>, r: Catalog, name: string, raw: RawSource,
                   minted: string)
    requires edit == Add(r, raw, minted) || edit == Update(r, name, raw, minted)
    ensures edit.Ok? ==> FieldsFrom(raw, NO_DEFAULTS, edit.value.1)
  {
    if edit == Add(r, raw, minted) { AddIff(r, raw, minted); } else { UpdateIff(r, name, raw, minted); }
  }

  lemma MergedKeeps(raw: RawSource, name: string, id: string)
    ensures var m := Merged(raw, name, id);
      && m.name == Some(if raw.name.Some? then raw.name.value else name) && m.id == Some(id)
      && (forall n :: GoodRecord(n, m, NO_DEFAULTS) <==> GoodRecord(n, raw, NO_DEFAULTS))
  {
    var m := Merged(raw, name, id);
    assert ChosenNotify(m, NO_DEFAULTS) == ChosenNotify(raw, NO_DEFAULTS);
    assert ChosenDetection(m, NO_DEFAULTS) == ChosenDetection(raw, NO_DEFAULTS);
  }

  lemma SameFields(raw: RawSource, merged: RawSource, s: SourceConfig)
    requires merged == raw.(name := merged.name, id := merged.id) && FieldsFrom(merged, NO_DEFAULTS, s)
    ensures FieldsFrom(raw, NO_DEFAULTS, s)
  {
    assert ChosenNotify(merged, NO_DEFAULTS) == ChosenNotify(raw, NO_DEFAULTS);
    assert ChosenDetection(merged, NO_DEFAULTS) == ChosenDetection(raw, NO_DEFAULTS);
  }

  /** A request to delete goes through exactly when the source exists; what goes is the first
      source of that name, and with it every other of that name. */
  lemma DeleteIff(r: Catalog, name: string)
    ensures Delete(r, name).Ok? <==> exists i :: 0 <= i < |r.sources| && r.sources[i].name == name
    ensures Delete(r, name).Ok? ==>
      var (r', s) := Delete(r, name).value;
      && s in r.sources && s.name == name
      && forall x :: x in r'.sources <==> x in r.sources && x.name != name
  {
  }

  // -- every loaded source ----------------------------------------------------------------------

  /** Every source a load returns has the fields of one of the files, filled up from the defaults. */
  lemma LoadedFields(files: Files, defaults: SourceDefaults, mint: string -> string, s: SourceConfig)
    returns (f: string)
    requires Load(files, defaults, mint).Ok? && s in Load(files, defaults, mint).value.0
    ensures f in files && files[f].Doc? && EndsWith(f, ".yaml")
    ensures files[f].raw.name == Some(s.name) && FieldsFrom(files[f].raw, defaults, s)
    ensures s.id ==
      if files[f].raw.id.Some? && files[f].raw.id.value != "" then files[f].raw.id.value else mint(f)
  {
    var names, build := Sorted(files.Keys), BuilderFor(defaults, mint);
    LoadSettles(names, files, build, {});
    LoadedNamesDistinct(names, files, build, {});
    f :| f in names && IsYaml(f) && build(f, files[f].raw) == Ok(s);
    BuildFields(files[f].raw, defaults, mint(f));
  }

  // -- which directories load ---------------------------------------------------------------------

  ghost predicate KeepsName(build: Builder) {
    forall f, raw :: build(f, raw).Ok? ==> raw.name == Some(build(f, raw).value.name)
  }

  ghost predicate LoadsAlone(files: Files, build: Builder, seen: set<string>, f: string) {
    f in files && files[f].Doc? && build(f, files[f].raw).Ok? && build(f, files[f].raw).value.name !in seen
  }

  ghost predicate NamesApart(names: seq<string>, files: Files) {
    forall f, g :: f in names && g in names && OfOneName(files, f, g) ==> f == g
  }

  /** Two source files that parse and say the same name. */
  predicate OfOneName(files: Files, f: string, g: string) {
    && f in files && g in files && EndsWith(f, ".yaml") && EndsWith(g, ".yaml")
    && files[f].Doc? && files[g].Doc? && files[f].raw.name == files[g].raw.name
  }

  lemma {:induction false} LoadFromIff(names: seq<string>, files: Files, build: Builder, seen: set<string>)
    requires NoDuplicates(names) && KeepsName(build)
    ensures LoadFrom(names, files, build, seen).Ok? <==>
      (forall f :: f in names && IsYaml(f) ==> LoadsAlone(files, build, seen, f)) && NamesApart(names, files)
  {
    if names != [] {
      var f, rest := names[0], names[1..];
      assert names == [f] + rest && f !in rest;
      if !IsYaml(f) {
        LoadFromIff(rest, files, build, seen);
      } else if LoadsAlone(files, build, seen, f) {
        var s := build(f, files[f].raw).value;
        var files' := Migrated(files, f, files[f].raw, s);
        LoadFromIff(rest, files', build, seen + {s.name});
        OneFileMore(f, rest, files, files', build, seen, s);
      }
    }
  }

  /** The first file and the rest load exactly when the rest does without the first one's name. */
  lemma OneFileMore(f: string, rest: seq<string>, files: Files, files': Files, build: Builder, seen: set<string>,
                    s: SourceConfig)
    requires KeepsName(build) && f !in rest && IsYaml(f) && LoadsAlone(files, build, seen, f)
    requires build(f, files[f].raw) == Ok(s) && files' == Migrated(files, f, files[f].raw, s)
    ensures
      (forall g :: g in rest && IsYaml(g) ==> LoadsAlone(files', build, seen + {s.name}, g)) &&
      NamesApart(rest, files') <==>
      (forall g :: g in [f] + rest && IsYaml(g) ==> LoadsAlone(files, build, seen, g)) &&
      NamesApart([f] + rest, files)
  {
    assert f in [f] + rest;
    assert forall g :: g in rest ==> g in [f] + rest;
    assert forall g :: g in rest ==> (g in files' <==> g in files) && (g in files ==> files'[g] == files[g]);
  }

  /** A directory loads exactly when every source file parses, has a good record, and no two have
      the same name. */
  lemma LoadIff(files: Files, defaults: SourceDefaults, mint: string -> string)
    ensures Load(files, defaults, mint).Ok? <==>
      && (forall f :: f in files && EndsWith(f, ".yaml") ==>
            files[f].Doc? && files[f].raw.name.Some? && GoodRecord(files[f].raw.name.value, files[f].raw, defaults))
      && (forall f, g :: OfOneName(files, f, g) ==> f == g)
  {
    var names, build := Sorted(files.Keys), BuilderFor(defaults, mint);
    forall f, raw ensures build(f, raw).Ok? ==> raw.name == Some(build(f, raw).value.name) {
      if build(f, raw).Ok? { BuildFields(raw, defaults, mint(f)); }
    }
    LoadFromIff(names, files, build, {});
    forall f | f in files && files[f].Doc?
      ensures build(f, files[f].raw).Ok? <==>
        files[f].raw.name.Some? && GoodRecord(files[f].raw.name.value, files[f].raw, defaults)
    {
      BuildIff(files[f].raw, defaults, mint(f));
    }
    LoadsAll(names, files, build, defaults);
  }

  lemma LoadsAll(names: seq<string>, files: Files, build: Builder, defaults: SourceDefaults)
    requires forall f :: f in names <==> f in files
    requires forall f :: f in files && files[f].Doc? ==>
      (build(f, files[f].raw).Ok? <==>
        files[f].raw.name.Some? && GoodRecord(files[f].raw.name.value, files[f].raw, defaults))
    ensures (forall f :: f in names && IsYaml(f) ==> LoadsAlone(files, build, {}, f)) <==>
      forall f :: f in files && EndsWith(f, ".yaml") ==>
        files[f].Doc? && files[f].raw.name.Some? && GoodRecord(files[f].raw.name.value, files[f].raw, defaults)
  {
  }

  // -- what a refusal says ------------------------------------------------------------------------

  /** The reason given for refusing a record is true of it. */
  ghost predicate TrueOf(e: Error, raw: RawSource, defaults: SourceDefaults) {
    var notify, detection := ChosenNotify(raw, defaults), ChosenDetection(raw, defaults);
    match e
    case MissingField(field) =>
      || (field == "name" && raw.name.None?) || (field == "type" && raw.kind.None?)
      || (field == "path" && raw.path.None?)
    case BadName => raw.name.Some? && !GoodName(raw.name.value)
    case BadKind => raw.kind.Some? && raw.kind.value !in {"rtsp", "device", "esphome_tcp"}
    case ThresholdsNotMappings => notify.NotMapping? || detection.NotMapping?
    case ThresholdsNotNumeric => !AllNumbers(notify) || !AllNumbers(detection)
    case ThresholdOrder(sound) =>
      && sound in Chosen(raw.listen, defaults.listen, ["bark", "bow-wow", "howl", "yip"])
      && AllNumbers(notify) && AllNumbers(detection) && !InOrder(notify, detection, sound)
    case NotConvertible =>
      || Chosen(raw.minVolume, defaults.minVolume, Number(500.0)).NotNumeric?
      || Chosen(raw.preCapture, defaults.preCapture, Number(5.0)).NotNumeric?
      || Chosen(raw.postCapture, defaults.postCapture, Number(5.0)).NotNumeric?
    case DuplicateName(_) => false
    case AlreadyExists(_) => false
    case NotFound(_) => false
    case Unreadable(_) => false
  }

  lemma RefusalIsTrue(raw: RawSource, defaults: SourceDefaults, minted: string)
    requires Build(raw, defaults, minted).Err?
    ensures TrueOf(Build(raw, defaults, minted).error, raw, defaults)
  {
    BuildChooses(raw, defaults);
    if raw.name.Some? { NameRule(raw.name.value); }
    FirstDisorderedIs(OrElse(raw.listen, defaults.listen).GetOr(DEFAULT_LISTEN));
  }

  lemma FirstDisorderedIs(listen: seq<string>)
    ensures forall detection, notify ::
      var r := FirstDisordered(listen, detection, notify);
      r.Some? ==> r.value in listen && !Ordered(r.value, detection, notify)
  {
    forall detection, notify
      ensures var r := FirstDisordered(listen, detection, notify);
        r.Some? ==> r.value in listen && !Ordered(r.value, detection, notify)
    {
      Disordered(listen, detection, notify);
    }
  }

  lemma {:induction false} Disordered(listen: seq<string>, detection: map<string, real>, notify: map<string, real>)
    ensures var r := FirstDisordered(listen, detection, notify);
      r.Some? ==> r.value in listen && !Ordered(r.value, detection, notify)
  {
    if listen != [] { Disordered(listen[1..], detection, notify); }
  }

  /** An edit is refused because the source does not exist, because the new name is taken, or for a
      reason that is true of the request; a missing source is told before anything else, a taken
      name in an add too. */
  lemma EditRefusals(r: Catalog, name: string, raw: RawSource, minted: string)
    ensures Delete(r, name).Err? ==> Delete(r, name).error == NotFound(name)
    ensures Update(r, name, raw, minted) == Err(NotFound(name)) <==>
      forall i :: 0 <= i < |r.sources| ==> r.sources[i].name != name
    ensures Update(r, name, raw, minted).Err? ==>
      var e := Update(r, name, raw, minted).error;
      || e == NotFound(name)
      || (raw.name.Some? && raw.name.value != name && HasName(r.sources, raw.name.value) &&
          e == AlreadyExists(raw.name.value))
      || TrueOf(e, raw.(name := Some(raw.name.GetOr(name))), NO_DEFAULTS)
    ensures raw.name.Some? ==>
      (Add(r, raw, minted) == Err(AlreadyExists(raw.name.value)) <==> HasName(r.sources, raw.name.value))
    ensures Add(r, raw, minted).Err? ==>
      var e := Add(r, raw, minted).error;
      (raw.name.Some? && e == AlreadyExists(raw.name.value)) || TrueOf(e, raw, NO_DEFAULTS)
  {
    if Build(raw, NO_DEFAULTS, minted).Err? { RefusalIsTrue(raw, NO_DEFAULTS, minted); }
    NameTaken(r.sources, name);
    if HasName(r.sources, name) {
      var merged := Merged(raw, name, r.sources[IndexOf(r.sources, name)].id);
      if Build(merged, NO_DEFAULTS, minted).Err? {
        RefusalIsTrue(merged, NO_DEFAULTS, minted);
        SameReason(Build(merged, NO_DEFAULTS, minted).error, merged, raw.(name := merged.name));
      }
    }
  }

  lemma SameReason(e: Error, raw: RawSource, other: RawSource)
    requires TrueOf(e, raw, NO_DEFAULTS) && other == raw.(id := other.id)
    ensures TrueOf(e, other, NO_DEFAULTS)
  {
    assert ChosenNotify(raw, NO_DEFAULTS) == ChosenNotify(other, NO_DEFAULTS);
    assert ChosenDetection(raw, NO_DEFAULTS) == ChosenDetection(other, NO_DEFAULTS);
  }
}
