/** Source records: what a source file may hold, how one becomes a validated
    `SourceConfig`, and how it is written back. */
module Sources {
  import opened Util

  const DEFAULT_LISTEN := ["bark", "bow-wow", "howl", "yip"]
  const DEFAULT_THRESHOLD := 0.8
  const DEFAULT_MIN_VOLUME := 500.0
  const DEFAULT_PRE_CAPTURE := 5.0
  const DEFAULT_POST_CAPTURE := 5.0
  const VALID_SOURCE_TYPES := ["rtsp", "device", "esphome_tcp"]

  datatype SourceConfig = SourceConfig(
    name: string, kind: string, path: string, listen: seq<string>,
    detectionThresholds: map<string, real>, notifyThresholds: map<string, real>,
    minVolume: real, preCapture: real, postCapture: real, inputArgs: seq<string>, id: string)
  {
    function NotifyThresholdFor(sound: string): real {
      if sound in notifyThresholds then notifyThresholds[sound] else DEFAULT_THRESHOLD
    }

    function DetectionThresholdFor(sound: string): real {
      if sound in detectionThresholds then detectionThresholds[sound] else NotifyThresholdFor(sound)
    }

    /** What loading guarantees about every source. */
    ghost predicate Valid() {
      && ValidName(name) && kind in VALID_SOURCE_TYPES
      && forall sound :: sound in listen ==>
           0.0 < DetectionThresholdFor(sound) <= NotifyThresholdFor(sound) <= 1.0
    }
  }

  ghost predicate UniqueNames(sources: seq<SourceConfig>) {
    forall i, j :: 0 <= i < j < |sources| ==> sources[i].name != sources[j].name
  }

  ghost predicate UniqueIds(sources: seq<SourceConfig>) {
    forall i, j :: 0 <= i < j < |sources| ==> sources[i].id != sources[j].id
  }

  /** A YAML scalar as `float()` sees it: the number it denotes, or nothing. */
  datatype Scalar = Number(value: real) | NotNumeric
  datatype Thresholds = Mapping(entries: map<string, Scalar>) | NotMapping

  /** One source file's keys; `None` is an absent key. */
  datatype RawSource = RawSource(
    id: Option<string>, name: Option<string>, kind: Option<string>, path: Option<string>,
    listen: Option<seq<string>>, detectionThresholds: Option<Thresholds>,
    notifyThresholds: Option<Thresholds>, thresholds: Option<Thresholds>,
    minVolume: Option<Scalar>, preCapture: Option<Scalar>, postCapture: Option<Scalar>,
    inputArgs: Option<seq<string>>)

  /** The `source_defaults` section of the application config. */
  datatype SourceDefaults = SourceDefaults(
    listen: Option<seq<string>>, detectionThresholds: Option<Thresholds>,
    notifyThresholds: Option<Thresholds>, thresholds: Option<Thresholds>,
    minVolume: Option<Scalar>, preCapture: Option<Scalar>, postCapture: Option<Scalar>)

  const NO_DEFAULTS := SourceDefaults(None, None, None, None, None, None, None)

  datatype Error =
    | MissingField(field: string) | BadName | BadKind
    | ThresholdsNotMappings | ThresholdsNotNumeric | ThresholdOrder(sound: string)
    | NotConvertible | DuplicateName(name: string)
    | AlreadyExists(name: string) | NotFound(name: string) | Unreadable(file: string)

  /** The characters `str.strip()` removes. */
  predicate IsSpace(c: char) {
    var u := c as int;
    || 9 <= u <= 13 || 28 <= u <= 32 || u == 0x85 || u == 0xa0 || u == 0x1680
    || 0x2000 <= u <= 0x200a || u == 0x2028 || u == 0x2029 || u == 0x202f || u == 0x205f || u == 0x3000
  }

  predicate ValidName(name: string) {
    && name != "" && !IsSpace(name[0]) && !IsSpace(Last(name))
    && '/' !in name
    && forall i :: 0 <= i < |name| ==> name[i] as int >= 0x20
  }

  predicate AllNumeric(entries: map<string, Scalar>) {
    forall sound :: sound in entries ==> entries[sound].Number?
  }

  function Floats(entries: map<string, Scalar>): map<string, real>
    requires AllNumeric(entries)
  {
    map sound | sound in entries :: entries[sound].value
  }

  function OrElse<T>(a: Option<T>, b: Option<T>): Option<T> {
    if a.Some? then a else b
  }

  /** The first listened label whose thresholds are out of order. */
  function FirstDisordered(listen: seq<string>, detection: map<string, real>, notify: map<string, real>)
    : (r: Option<string>)
    ensures r.None? <==> forall sound :: sound in listen ==> Ordered(sound, detection, notify)
  {
    if listen == [] then None
    else if !Ordered(listen[0], detection, notify) then Some(listen[0])
    else
      var r := FirstDisordered(listen[1..], detection, notify);
      assert listen == [listen[0]] + listen[1..];
      r
  }

  predicate Ordered(sound: string, detection: map<string, real>, notify: map<string, real>) {
    var n := if sound in notify then notify[sound] else DEFAULT_THRESHOLD;
    var d := if sound in detection then detection[sound] else n;
    0.0 < d <= n <= 1.0
  }

  /** `build_source_config`; `minted` is the id minted when the record brings none. */
  function Build(raw: RawSource, defaults: SourceDefaults, minted: string): Result<SourceConfig, Error> {
    if raw.name.None? then Err(MissingField("name"))
    else if raw.kind.None? then Err(MissingField("type"))
    else if raw.path.None? then Err(MissingField("path"))
    else if !ValidName(raw.name.value) then Err(BadName)
    else if raw.kind.value !in VALID_SOURCE_TYPES then Err(BadKind)
    else
      var notify := OrElse(raw.notifyThresholds, OrElse(raw.thresholds,
        OrElse(defaults.notifyThresholds, defaults.thresholds))).GetOr(Mapping(map[]));
      var detection := OrElse(raw.detectionThresholds, defaults.detectionThresholds).GetOr(Mapping(map[]));
      if notify.NotMapping? || detection.NotMapping? then Err(ThresholdsNotMappings)
      else if !AllNumeric(notify.entries) || !AllNumeric(detection.entries) then Err(ThresholdsNotNumeric)
      else
        var listen := OrElse(raw.listen, defaults.listen).GetOr(DEFAULT_LISTEN);
        var bad := FirstDisordered(listen, Floats(detection.entries), Floats(notify.entries));
        var volume := OrElse(raw.minVolume, defaults.minVolume).GetOr(Number(DEFAULT_MIN_VOLUME));
        var pre := OrElse(raw.preCapture, defaults.preCapture).GetOr(Number(DEFAULT_PRE_CAPTURE));
        var post := OrElse(raw.postCapture, defaults.postCapture).GetOr(Number(DEFAULT_POST_CAPTURE));
        if bad.Some? then Err(ThresholdOrder(bad.value))
        else if volume.NotNumeric? || pre.NotNumeric? || post.NotNumeric? then Err(NotConvertible)
        else Ok(SourceConfig(raw.name.value, raw.kind.value, raw.path.value, listen,
          Floats(detection.entries), Floats(notify.entries), volume.value, pre.value, post.value,
          raw.inputArgs.GetOr([]), if HasId(raw) then raw.id.value else minted))
  }

  /** `raw.get("id")` is present and not empty. */
  predicate HasId(raw: RawSource) {
    raw.id.Some? && raw.id.value != ""
  }

  function Numbers(m: map<string, real>): Thresholds {
    Mapping(map sound | sound in m :: Number(m[sound]))
  }

  /** `_dump_source` */
  function Dump(s: SourceConfig): RawSource {
    RawSource(Some(s.id), Some(s.name), Some(s.kind), Some(s.path), Some(s.listen),
      Some(Numbers(s.detectionThresholds)), Some(Numbers(s.notifyThresholds)), None,
      Some(Number(s.minVolume)), Some(Number(s.preCapture)), Some(Number(s.postCapture)), Some(s.inputArgs))
  }

  /** A camera with nothing but a name and an id, for examples. */
  function Bare(name: string, id: string): (s: SourceConfig)
    ensures ValidName(name) ==> s.Valid()
  {
    SourceConfig(name, "rtsp", "rtsp://camera", [], map[], map[],
      DEFAULT_MIN_VOLUME, DEFAULT_PRE_CAPTURE, DEFAULT_POST_CAPTURE, [], id)
  }

  /** A built source is valid, whatever the defaults; its identity fields are the
      record's own, and only the id can depend on what was minted. */
  lemma BuildIsValid(raw: RawSource, defaults: SourceDefaults, minted: string, minted': string)
    requires Build(raw, defaults, minted).Ok?
    ensures Build(raw, defaults, minted).value.Valid()
    ensures raw.name == Some(Build(raw, defaults, minted).value.name)
    ensures Build(raw, defaults, minted).value.id == if HasId(raw) then raw.id.value else minted
    ensures Build(raw, defaults, minted') ==
      Ok(Build(raw, defaults, minted).value.(id := if HasId(raw) then raw.id.value else minted'))
  {
    var s := Build(raw, defaults, minted).value;
    forall sound | sound in s.listen
      ensures 0.0 < s.DetectionThresholdFor(sound) <= s.NotifyThresholdFor(sound) <= 1.0
    {
      assert Ordered(sound, s.detectionThresholds, s.notifyThresholds);
    }
  }

  /** Rebuilding a dumped source gives it back under any defaults and any minted
      id, exactly when the source is valid and has an id. */
  lemma DumpRebuilds(s: SourceConfig)
    ensures (forall defaults, minted :: Build(Dump(s), defaults, minted) == Ok(s)) <==> s.Valid() && s.id != ""
  {
    if s.Valid() && s.id != "" {
      forall defaults, minted ensures Build(Dump(s), defaults, minted) == Ok(s) {
        DumpRebuildsValid(s, defaults, minted);
      }
    }
    if forall defaults, minted :: Build(Dump(s), defaults, minted) == Ok(s) {
      assert Build(Dump(s), NO_DEFAULTS, "x") == Ok(s);
      BuildIsValid(Dump(s), NO_DEFAULTS, "x", "x");
    }
  }

  lemma DumpRebuildsValid(s: SourceConfig, defaults: SourceDefaults, minted: string)
    requires s.Valid() && s.id != ""
    ensures Build(Dump(s), defaults, minted) == Ok(s)
  {
    assert Floats(Numbers(s.detectionThresholds).entries) == s.detectionThresholds;
    assert Floats(Numbers(s.notifyThresholds).entries) == s.notifyThresholds;
    forall sound | sound in s.listen ensures Ordered(sound, s.detectionThresholds, s.notifyThresholds) {
      assert 0.0 < s.DetectionThresholdFor(sound) <= s.NotifyThresholdFor(sound) <= 1.0;
    }
  }
}
