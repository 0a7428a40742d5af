/** The application config: read from a file and the environment, written back as the
    values that differ from the defaults and do not come from the environment.

    Every setting is one row of a table: where it lives in the file, its environment
    variable, how its value is read, and its default.  File values are dynamically
    typed, as YAML gives them. */
module AppConfig {
  import opened Util

  datatype Value = Null | Bool(b: bool) | Int(i: int) | Float(r: real) | Str(s: string)

  datatype Field =
    | MqttEnabled | MqttHost | MqttPort | MqttUsername | MqttPassword
    | MqttTopic | MqttClientId | MqttDiscovery | MqttDiscoveryPrefix
    | SourcesDir | SnippetDir | FfmpegPath | LogLevel
    | WebEnabled | WebHost | WebPort
    | CleanupMaxAgeDays | CleanupMaxSpaceMb | CleanupCheckIntervalMinutes
  {
    predicate Mqtt() {
      MqttEnabled? || MqttHost? || MqttPort? || MqttUsername? || MqttPassword? ||
      MqttTopic? || MqttClientId? || MqttDiscovery? || MqttDiscoveryPrefix?
    }

    function EnvKey(): Option<string> {
      match this
      case MqttEnabled => Some("MQTT_ENABLED")
      case MqttHost => Some("MQTT_HOST")
      case MqttPort => Some("MQTT_PORT")
      case MqttUsername => Some("MQTT_USERNAME")
      case MqttPassword => Some("MQTT_PASSWORD")
      case MqttTopic => Some("MQTT_TOPIC")
      case MqttClientId => Some("MQTT_CLIENT_ID")
      case MqttDiscovery => Some("MQTT_DISCOVERY")
      case MqttDiscoveryPrefix => Some("MQTT_DISCOVERY_PREFIX")
      case SourcesDir => Some("SOURCES_DIR")
      case SnippetDir => Some("SNIPPET_DIR")
      case FfmpegPath => None
      case LogLevel => Some("LOG_LEVEL")
      case WebEnabled => Some("WEB_ENABLED")
      case WebHost => Some("WEB_HOST")
      case WebPort => Some("WEB_PORT")
      case CleanupMaxAgeDays => Some("CLEANUP_MAX_AGE_DAYS")
      case CleanupMaxSpaceMb => Some("CLEANUP_MAX_SPACE_MB")
      case CleanupCheckIntervalMinutes => Some("CLEANUP_CHECK_INTERVAL_MINUTES")
    }

    function Kind(): Kind {
      match this
      case MqttEnabled => AsBool
      case MqttPort => AsInt
      case MqttUsername => OrNone
      case MqttPassword => OrNone
      case MqttDiscovery => AsBool
      case WebEnabled => AsBool
      case WebPort => AsInt
      case CleanupMaxAgeDays => OptionalFloat
      case CleanupMaxSpaceMb => OptionalFloat
      case CleanupCheckIntervalMinutes => AsFloat
      case _ => AsIs
    }

    function Default(): Value {
      match this
      case MqttEnabled => Bool(false)
      case MqttHost => Str("localhost")
      case MqttPort => Int(1883)
      case MqttUsername => Null
      case MqttPassword => Null
      case MqttTopic => Str("bark_detector")
      case MqttClientId => Str("bark_detector")
      case MqttDiscovery => Bool(true)
      case MqttDiscoveryPrefix => Str("homeassistant")
      case SourcesDir => Str("/config/sources")
      case SnippetDir => Str("/media/bark_snippets")
      case FfmpegPath => Str("ffmpeg")
      case LogLevel => Str("INFO")
      case WebEnabled => Bool(true)
      case WebHost => Str("0.0.0.0")
      case WebPort => Int(8099)
      case CleanupMaxAgeDays => Float(30.0)
      case CleanupMaxSpaceMb => Float(100.0)
      case CleanupCheckIntervalMinutes => Float(15.0)
    }
  }

  /** How a file value is read: through `bool`, `int` or `float`, as it stands, as it
      stands with an empty value meaning none, or as a float that may be none. */
  datatype Kind = AsBool | AsInt | AsFloat | AsIs | OrNone | OptionalFloat

  /** Python's text conversions: which strings `int()` and `float()` accept and what they
      give, which ones mean true, and which ones mean no limit. */
  datatype Casts = Casts(
    toInt: string -> Option<int>, toFloat: string -> Option<real>, isTrue: string -> bool, isNone: string -> bool)

  type Env = map<string, string>

  /** The config file's keys: a field is present or not. */
  type File = map<Field, Value>

  /** A loaded config has a value for every field. */
  type Settings = Field -> Value

  ghost predicate Same(s: Settings, t: Settings) {
    forall f: Field :: s(f) == t(f)
  }

  // -- one field -----------------------------------------------------------------------

  function Truthy(v: Value): bool {
    match v
    case Null => false
    case Bool(b) => b
    case Int(i) => i != 0
    case Float(r) => r != 0.0
    case Str(s) => s != ""
  }

  function ToInt(c: Casts, v: Value): Option<int> {
    match v
    case Null => None
    case Bool(b) => Some(if b then 1 else 0)
    case Int(i) => Some(i)
    case Float(r) => Some(Truncate(r))
    case Str(s) => c.toInt(s)
  }

  function ToFloat(c: Casts, v: Value): Option<real> {
    match v
    case Null => None
    case Bool(b) => Some(if b then 1.0 else 0.0)
    case Int(i) => Some(i as real)
    case Float(r) => Some(r)
    case Str(s) => c.toFloat(s)
  }

  function Wrap<T>(x: Option<T>, ctor: T -> Value): Option<Value> {
    if x.Some? then Some(ctor(x.value)) else None
  }

  /** The file's value (or the default), converted; `None` is a conversion error. */
  function FromFile(c: Casts, f: Field, v: Value): Option<Value> {
    match f.Kind()
    case AsBool => Some(Bool(Truthy(v)))
    case AsInt => Wrap(ToInt(c, v), i => Int(i))
    case AsFloat => Wrap(ToFloat(c, v), r => Float(r))
    case AsIs => Some(v)
    case OrNone => Some(if Truthy(v) then v else Null)
    case OptionalFloat => if v == Null then Some(Null) else Wrap(ToFloat(c, v), r => Float(r))
  }

  /** `_env_override` and its two variants: the environment wins, cast to the type of the
      value it replaces. */
  function Override(c: Casts, f: Field, current: Value, raw: Option<string>): Option<Value> {
    if raw.None? then Some(current)
    else
      match f.Kind()
      case OrNone => Some(Str(raw.value))
      case OptionalFloat => if c.isNone(raw.value) then Some(Null) else Wrap(c.toFloat(raw.value), r => Float(r))
      case _ =>
        match current
        case Bool(_) => Some(Bool(c.isTrue(raw.value)))
        case Int(_) => Wrap(c.toInt(raw.value), i => Int(i))
        case Float(_) => Wrap(c.toFloat(raw.value), r => Float(r))
        case _ => Some(Str(raw.value))
  }

  function EnvOf(env: Env, f: Field): Option<string> {
    if f.EnvKey().Some? && f.EnvKey().value in env then Some(env[f.EnvKey().value]) else None
  }

  /** What loading makes of one field, the file value being `v`. */
  function Resolve(c: Casts, env: Env, f: Field, v: Value): Option<Value> {
    var read := FromFile(c, f, v);
    if read.None? then None else Override(c, f, read.value, EnvOf(env, f))
  }

  /** `Resolve` and "is set in the environment" as values. */
  type Reader = (Field, Value) -> Option<Value>
  type Setter = Field -> bool

  function ReaderFor(c: Casts, env: Env): Reader {
    (f: Field, v: Value) => Resolve(c, env, f, v)
  }

  function SetIn(env: Env): Setter {
    (f: Field) => EnvOf(env, f).Some?
  }

  // -- loading and dumping ----------------------------------------------------------------

  const BUILT_IN_DIR := "/config/sources"

  /** What a missing key stands for; the caller of `load_config` chooses the sources directory. */
  function DefaultIn(dir: string, f: Field): Value {
    if f.SourcesDir? then Str(dir) else f.Default()
  }

  function ValueIn(file: File, dir: string, f: Field): Value {
    if f in file then file[f] else DefaultIn(dir, f)
  }

  function Got(v: Option<Value>): Value { v.GetOr(Null) }

  ghost predicate Loads(read: Reader, dir: string, file: File) {
    forall f: Field :: read(f, ValueIn(file, dir, f)).Some?
  }

  /** `load_config`, sources apart; it succeeds when `Loads`. */
  function Load(read: Reader, dir: string, file: File): Settings {
    (f: Field) => Got(read(f, ValueIn(file, dir, f)))
  }

  /** `dump_config`: only what differs from its default and is not set by the environment. */
  function Dump(set_: Setter, s: Settings): File {
    map f: Field | !set_(f) && s(f) != f.Default() :: s(f)
  }

  /** `update_mqtt`: the request over the current MQTT settings, read as a file would be. */
  function Merged(s: Settings, request: File, f: Field): Value {
    if f in request then request[f] else s(f)
  }

  ghost predicate Updates(read: Reader, s: Settings, request: File) {
    forall f: Field :: f.Mqtt() ==> read(f, Merged(s, request, f)).Some?
  }

  function UpdateMqtt(read: Reader, s: Settings, request: File): Settings {
    (f: Field) => if f.Mqtt() then Got(read(f, Merged(s, request, f))) else s(f)
  }

  // -- the environment never reaches the file -----------------------------------------------

  /** Readers of two environments that set the same variables. */
  ghost predicate SameOutside(set_: Setter, read: Reader, read': Reader) {
    forall f: Field, v: Value :: !set_(f) ==> read(f, v) == read'(f, v)
  }

  lemma SameVariables(c: Casts, env: Env, env': Env)
    requires env.Keys == env'.Keys
    ensures forall f: Field :: SetIn(env)(f) == SetIn(env')(f)
    ensures SameOutside(SetIn(env), ReaderFor(c, env), ReaderFor(c, env'))
  {
    forall f: Field ensures SetIn(env)(f) == SetIn(env')(f) {}
    forall f: Field, v: Value | !SetIn(env)(f) ensures ReaderFor(c, env)(f, v) == ReaderFor(c, env')(f, v) {
      assert EnvOf(env, f) == None == EnvOf(env', f);
    }
  }

  function UpdateAll(read: Reader, s: Settings, requests: seq<File>): Settings {
    if requests == [] then s else UpdateMqtt(read, UpdateAll(read, s, Front(requests)), Last(requests))
  }

  lemma {:induction false} UpdatesAgree(
    set_: Setter, read: Reader, read': Reader, dir: string, file: File, requests: seq<File>)
    requires SameOutside(set_, read, read')
    ensures forall f: Field :: !set_(f) ==>
      UpdateAll(read, Load(read, dir, file), requests)(f) == UpdateAll(read', Load(read', dir, file), requests)(f)
  {
    var s, s' := Load(read, dir, file), Load(read', dir, file);
    if requests == [] {
      forall f: Field | !set_(f) ensures s(f) == s'(f) {
        assert read(f, ValueIn(file, dir, f)) == read'(f, ValueIn(file, dir, f));
      }
    } else {
      UpdatesAgree(set_, read, read', dir, file, Front(requests));
      var t, t' := UpdateAll(read, s, Front(requests)), UpdateAll(read', s', Front(requests));
      forall f: Field | !set_(f)
        ensures UpdateMqtt(read, t, Last(requests))(f) == UpdateMqtt(read', t', Last(requests))(f)
      {
        assert read(f, Merged(t, Last(requests), f)) == read'(f, Merged(t, Last(requests), f));
      }
    }
  }

  // -- reading back ----------------------------------------------------------------------------

  /** Reading what was read changes nothing. */
  lemma ReadingIsIdempotent(c: Casts, env: Env, f: Field, v: Value)
    requires Resolve(c, env, f, v).Some?
    ensures Resolve(c, env, f, Resolve(c, env, f, v).value) == Resolve(c, env, f, v)
  {
    if EnvOf(env, f).None? {
      FileValueSettles(c, f, v);
    }
  }

  lemma FileValueSettles(c: Casts, f: Field, v: Value)
    requires FromFile(c, f, v).Some?
    ensures FromFile(c, f, FromFile(c, f, v).value) == FromFile(c, f, v)
  {
  }

  /** A variable that is set decides alone, exactly unless it replaces a number or a truth
      value that is not converted. */
  lemma VariableDecidesIff(c: Casts, env: Env, f: Field, v: Value)
    requires EnvOf(env, f).Some? && Resolve(c, env, f, v).Some?
    ensures Resolve(c, env, f, f.Default()) == Resolve(c, env, f, v) <==> !(f.Kind().AsIs? && Scalar(v))
  {
  }

  /** A number or a truth value: what an unconverted field should not hold. */
  predicate Scalar(v: Value) { v.Bool? || v.Int? || v.Float? }

  lemma DefaultReads(c: Casts, env: Env, f: Field)
    requires EnvOf(env, f).None?
    ensures Resolve(c, env, f, f.Default()) == Some(f.Default())
  {
  }

  /** Settings as a reload would give them back: under a set variable what the default
      reads as, elsewhere a value that reads as itself. */
  ghost predicate Stable(read: Reader, set_: Setter, s: Settings) {
    forall f: Field :: StableAt(read, set_, s, f)
  }

  ghost predicate StableAt(read: Reader, set_: Setter, s: Settings, f: Field) {
    read(f, if set_(f) then f.Default() else s(f)) == Some(s(f))
  }

  /** The sources directory is not lost: a chosen default other than the built-in one is
      lost exactly if the setting is the built-in one and no variable sets it. */
  ghost predicate DirKept(set_: Setter, dir: string, s: Settings) {
    dir == BUILT_IN_DIR || set_(SourcesDir) || s(SourcesDir) != Str(BUILT_IN_DIR)
  }

  ghost predicate ReadsBack(read: Reader, set_: Setter, dir: string, s: Settings) {
    Loads(read, dir, Dump(set_, s)) && Same(Load(read, dir, Dump(set_, s)), s)
  }

  /** What readers made by `ReaderFor` guarantee, field by field. */
  ghost predicate Regular(read: Reader, set_: Setter) {
    && (forall f: Field, v: Value :: read(f, v).Some? ==> read(f, read(f, v).value) == read(f, v))
    && (forall f: Field, v: Value :: set_(f) && read(f, v).Some? ==>
          (read(f, f.Default()) == read(f, v) <==> !Clashes(f, v)))
    && (forall f: Field :: !set_(f) ==> read(f, f.Default()) == Some(f.Default()))
    && (forall v: Value :: !set_(SourcesDir) ==> read(SourcesDir, v) == Some(v))
    && (set_(SourcesDir) ==> forall dir: string :: read(SourcesDir, Str(dir)) == read(SourcesDir, SourcesDir.Default()))
  }

  predicate Clashes(f: Field, v: Value) { f.Kind().AsIs? && Scalar(v) }

  lemma ReaderIsRegular(c: Casts, env: Env)
    ensures Regular(ReaderFor(c, env), SetIn(env))
  {
    var read, set_ := ReaderFor(c, env), SetIn(env);
    forall f: Field, v: Value | read(f, v).Some?
      ensures read(f, read(f, v).value) == read(f, v)
      ensures set_(f) ==> (read(f, f.Default()) == read(f, v) <==> !Clashes(f, v))
    {
      ReadingIsIdempotent(c, env, f, v);
      if set_(f) { VariableDecidesIff(c, env, f, v); }
    }
    forall f: Field | !set_(f) ensures read(f, f.Default()) == Some(f.Default()) {
      DefaultReads(c, env, f);
    }
    assert SourcesDir.Kind() == AsIs;
  }

  lemma ReadsBackIffStable(read: Reader, set_: Setter, dir: string, s: Settings)
    requires Regular(read, set_) && forall f: Field :: !set_(f) ==> StableAt(read, set_, s, f)
    ensures ReadsBack(read, set_, dir, s) <==> Stable(read, set_, s) && DirKept(set_, dir, s)
  {
    var file := Dump(set_, s);
    forall f: Field
      ensures read(f, ValueIn(file, dir, f)) == Some(s(f)) <==>
        StableAt(read, set_, s, f) && (f.SourcesDir? ==> DirKept(set_, dir, s))
    {
      assert StableAt(read, set_, s, f) || set_(f);
    }
    if Stable(read, set_, s) && DirKept(set_, dir, s) {
      forall f: Field ensures read(f, ValueIn(file, dir, f)) == Some(s(f)) { assert StableAt(read, set_, s, f); }
    }
    if ReadsBack(read, set_, dir, s) {
      forall f: Field ensures StableAt(read, set_, s, f) && (f.SourcesDir? ==> DirKept(set_, dir, s)) {
        assert Load(read, dir, file)(f) == s(f) && read(f, ValueIn(file, dir, f)).Some?;
      }
      assert SourcesDir.SourcesDir?;
    }
  }

  /** No unconverted field that the environment sets holds a number or truth value here. */
  ghost predicate NoClash(set_: Setter, file: File) {
    forall f: Field :: f in file && set_(f) ==> !Clashes(f, file[f])
  }

  lemma LoadedStableIff(read: Reader, set_: Setter, dir: string, file: File)
    requires Regular(read, set_) && Loads(read, dir, file)
    ensures var s := Load(read, dir, file);
      && (forall f: Field :: !set_(f) ==> StableAt(read, set_, s, f))
      && (Stable(read, set_, s) <==> NoClash(set_, file))
  {
    var s := Load(read, dir, file);
    forall f: Field
      ensures !set_(f) ==> StableAt(read, set_, s, f)
      ensures set_(f) ==> (StableAt(read, set_, s, f) <==> (f in file ==> !Clashes(f, file[f])))
    {
      assert read(f, ValueIn(file, dir, f)) == Some(s(f));
      if set_(f) && f !in file { assert !Clashes(f, DefaultIn(dir, f)); }
    }
    if NoClash(set_, file) {
      forall f: Field ensures StableAt(read, set_, s, f) {}
    }
    if Stable(read, set_, s) {
      forall f: Field | f in file && set_(f) ensures !Clashes(f, file[f]) { assert StableAt(read, set_, s, f); }
    }
  }

  /** Loading the dumped config under the same environment gives the same config back,
      exactly when the file holds no number or truth value for a text setting that the
      environment also sets, and the sources directory is not lost. */
  lemma RoundTripIff(c: Casts, env: Env, dir: string, file: File)
    requires Loads(ReaderFor(c, env), dir, file)
    ensures var read, set_ := ReaderFor(c, env), SetIn(env);
      var s := Load(read, dir, file);
      ReadsBack(read, set_, dir, s) <==> NoClash(set_, file) && DirKept(set_, dir, s)
  {
    var read, set_ := ReaderFor(c, env), SetIn(env);
    ReaderIsRegular(c, env);
    LoadedStableIff(read, set_, dir, file);
    ReadsBackIffStable(read, set_, dir, Load(read, dir, file));
  }

  lemma DumpReloads(read: Reader, set_: Setter, dir: string, s: Settings)
    requires Regular(read, set_) && forall f: Field :: !set_(f) ==> StableAt(read, set_, s, f)
    requires forall f: Field :: set_(f) ==> read(f, f.Default()).Some?
    ensures Loads(read, dir, Dump(set_, s))
  {
    forall f: Field ensures read(f, ValueIn(Dump(set_, s), dir, f)).Some? {
      if !set_(f) { assert StableAt(read, set_, s, f); }
    }
  }

  lemma RedumpIff(read: Reader, set_: Setter, dir: string, s: Settings)
    requires Regular(read, set_) && forall f: Field :: !set_(f) ==> StableAt(read, set_, s, f)
    ensures Dump(set_, Load(read, dir, Dump(set_, s))) == Dump(set_, s) <==> DirKept(set_, dir, s)
  {
    var dumped := Dump(set_, s);
    var t := Load(read, dir, dumped);
    forall f: Field | !set_(f) ensures t(f) == if f.SourcesDir? && !DirKept(set_, dir, s) then Str(dir) else s(f) {
      assert StableAt(read, set_, s, f);
      var v := ValueIn(dumped, dir, f);
      assert t(f) == Got(read(f, v));
      if f.SourcesDir? { assert read(SourcesDir, v) == Some(v); }
    }
    if DirKept(set_, dir, s) {
      assert Dump(set_, t) == dumped;
    } else {
      assert SourcesDir in Dump(set_, t) && SourcesDir !in dumped;
    }
  }

  /** Whatever the file and the environment, a dump loads again; dumping that load writes
      the same file, exactly when the sources directory is not lost. */
  lemma DumpIsIdempotentIff(c: Casts, env: Env, dir: string, file: File)
    requires Loads(ReaderFor(c, env), dir, file)
    ensures var read, set_ := ReaderFor(c, env), SetIn(env);
      var dumped := Dump(set_, Load(read, dir, file));
      && Loads(read, dir, dumped)
      && (Dump(set_, Load(read, dir, dumped)) == dumped <==> DirKept(set_, dir, Load(read, dir, file)))
  {
    var read, set_ := ReaderFor(c, env), SetIn(env);
    var s := Load(read, dir, file);
    ReaderIsRegular(c, env);
    LoadedStableIff(read, set_, dir, file);
    SetDefaultsRead(c, env, dir, file);
    DumpReloads(read, set_, dir, s);
    RedumpIff(read, set_, dir, s);
  }

  lemma SetDefaultsRead(c: Casts, env: Env, dir: string, file: File)
    requires Loads(ReaderFor(c, env), dir, file)
    ensures forall f: Field :: SetIn(env)(f) ==> ReaderFor(c, env)(f, f.Default()).Some?
  {
    forall f: Field | SetIn(env)(f) ensures ReaderFor(c, env)(f, f.Default()).Some? {
      assert ReaderFor(c, env)(f, ValueIn(file, dir, f)).Some?;
      SetDefaultReads(c, env, f, ValueIn(file, dir, f));
    }
  }

  /** Under a set variable that some file value lets through, the default goes through. */
  lemma SetDefaultReads(c: Casts, env: Env, f: Field, v: Value)
    requires EnvOf(env, f).Some? && Resolve(c, env, f, v).Some?
    ensures Resolve(c, env, f, f.Default()).Some?
  {
    VariableDecidesIff(c, env, f, v);
  }

  /** A number for the MQTT topic in the file and a topic in the environment: the config
      loads with a number for a topic and reads back with text. */
  lemma ClashingTopic() returns (c: Casts, env: Env, file: File)
    ensures Loads(ReaderFor(c, env), BUILT_IN_DIR, file)
    ensures Load(ReaderFor(c, env), BUILT_IN_DIR, file)(MqttTopic) == Int(7)
    ensures !ReadsBack(ReaderFor(c, env), SetIn(env), BUILT_IN_DIR, Load(ReaderFor(c, env), BUILT_IN_DIR, file))
  {
    c := Casts(x => if x == "7" then Some(7) else None, _ => None, _ => false, _ => false);
    env, file := map["MQTT_TOPIC" := "7"], map[MqttTopic := Int(3)];
    forall f: Field ensures ReaderFor(c, env)(f, ValueIn(file, BUILT_IN_DIR, f)).Some? {
      if f != MqttTopic { DefaultReads(c, env, f); }
    }
    assert SetIn(env)(MqttTopic) && Clashes(MqttTopic, file[MqttTopic]);
    RoundTripIff(c, env, BUILT_IN_DIR, file);
  }

  /** Another default than the built-in directory, and a file that names the built-in one:
      the dump leaves it out, and the reload takes the other. */
  lemma LostDirectory(c: Casts, dir: string)
    requires dir != BUILT_IN_DIR
    ensures var read, set_ := ReaderFor(c, map[]), SetIn(map[]);
      var s := Load(read, dir, map[SourcesDir := Str(BUILT_IN_DIR)]);
      && Loads(read, dir, map[SourcesDir := Str(BUILT_IN_DIR)])
      && s(SourcesDir) == Str(BUILT_IN_DIR) && !ReadsBack(read, set_, dir, s)
  {
    var read, file := ReaderFor(c, map[]), map[SourcesDir := Str(BUILT_IN_DIR)];
    forall f: Field ensures read(f, ValueIn(file, dir, f)).Some? {
      if !f.SourcesDir? { DefaultReads(c, map[], f); }
    }
    RoundTripIff(c, map[], dir, file);
  }

  // -- partial updates -------------------------------------------------------------------------

  ghost predicate AllUpdate(read: Reader, s: Settings, requests: seq<File>) {
    requests != [] ==>
      AllUpdate(read, s, Front(requests)) && Updates(read, UpdateAll(read, s, Front(requests)), Last(requests))
  }

  /** The requests that go through; a refused one leaves the settings as they are. */
  ghost function Accepted(read: Reader, s: Settings, requests: seq<File>): (done: seq<File>)
    ensures AllUpdate(read, s, done)
  {
    if requests == [] then []
    else
      var done := Accepted(read, s, Front(requests));
      if Updates(read, UpdateAll(read, s, done), Last(requests)) then
        assert Front(done + [Last(requests)]) == done;
        done + [Last(requests)]
      else done
  }

  /** What a series of requests asks for in the end: the last value given for each setting. */
  function AllAsked(requests: seq<File>): File {
    if requests == [] then map[] else AllAsked(Front(requests)) + Last(requests)
  }

  function MqttKeys(request: File): File {
    map f | f in request && f.Mqtt() :: request[f]
  }

  /** Updating a loaded config is loading the file with the requested MQTT keys laid over it. */
  lemma {:induction false} UpdatesAreOverlay(read: Reader, set_: Setter, dir: string, file: File, requests: seq<File>)
    requires Regular(read, set_) && Loads(read, dir, file) && AllUpdate(read, Load(read, dir, file), requests)
    ensures Loads(read, dir, file + MqttKeys(AllAsked(requests)))
    ensures Same(UpdateAll(read, Load(read, dir, file), requests), Load(read, dir, file + MqttKeys(AllAsked(requests))))
  {
    if requests == [] {
      assert file + MqttKeys(AllAsked(requests)) == file;
    } else {
      var before, request := file + MqttKeys(AllAsked(Front(requests))), Last(requests);
      UpdatesAreOverlay(read, set_, dir, file, Front(requests));
      var s := UpdateAll(read, Load(read, dir, file), Front(requests));
      OneOverlay(read, set_, dir, before, s, request);
      OverlaysJoin(file, AllAsked(Front(requests)), request);
    }
  }

  lemma OverlaysJoin(file: File, first: File, second: File)
    ensures file + MqttKeys(first + second) == file + MqttKeys(first) + MqttKeys(second)
  {
  }

  lemma OneOverlay(read: Reader, set_: Setter, dir: string, file: File, s: Settings, request: File)
    requires Regular(read, set_) && Loads(read, dir, file)
    requires Same(s, Load(read, dir, file)) && Updates(read, s, request)
    ensures Loads(read, dir, file + MqttKeys(request))
    ensures Same(UpdateMqtt(read, s, request), Load(read, dir, file + MqttKeys(request)))
  {
    var merged := file + MqttKeys(request);
    forall f: Field
      ensures read(f, ValueIn(merged, dir, f)) == Some(UpdateMqtt(read, s, request)(f))
    {
      assert read(f, ValueIn(file, dir, f)).Some? && s(f) == Load(read, dir, file)(f);
      if f.Mqtt() {
        assert read(f, Merged(s, request, f)).Some?;
      }
    }
  }

  lemma ReadsBackSame(read: Reader, set_: Setter, dir: string, s: Settings, t: Settings)
    requires Same(s, t)
    ensures ReadsBack(read, set_, dir, s) <==> ReadsBack(read, set_, dir, t)
  {
    assert Dump(set_, s) == Dump(set_, t);
  }

  /** After any series of partial MQTT updates, accepted or refused, the config reads back
      exactly when no number or truth value is left, in the file with the accepted requests
      laid over it, for a text setting that the environment also sets, and the sources
      directory is not lost. */
  lemma RoundTripAfterUpdatesIff(c: Casts, env: Env, dir: string, file: File, requests: seq<File>)
    requires Loads(ReaderFor(c, env), dir, file)
    ensures var read, set_ := ReaderFor(c, env), SetIn(env);
      var s := Load(read, dir, file);
      var done := Accepted(read, s, requests);
      ReadsBack(read, set_, dir, UpdateAll(read, s, done)) <==>
        NoClash(set_, file + MqttKeys(AllAsked(done))) && DirKept(set_, dir, s)
  {
    var read, set_ := ReaderFor(c, env), SetIn(env);
    ReaderIsRegular(c, env);
    UpdatedReadsBackIff(read, set_, dir, file, Accepted(read, Load(read, dir, file), requests));
  }

  lemma UpdatedReadsBackIff(read: Reader, set_: Setter, dir: string, file: File, done: seq<File>)
    requires Regular(read, set_) && Loads(read, dir, file) && AllUpdate(read, Load(read, dir, file), done)
    ensures ReadsBack(read, set_, dir, UpdateAll(read, Load(read, dir, file), done)) <==>
      NoClash(set_, file + MqttKeys(AllAsked(done))) && DirKept(set_, dir, Load(read, dir, file))
  {
    var merged := file + MqttKeys(AllAsked(done));
    var t := Load(read, dir, merged);
    UpdatesAreOverlay(read, set_, dir, file, done);
    ReadsBackSame(read, set_, dir, UpdateAll(read, Load(read, dir, file), done), t);
    LoadedStableIff(read, set_, dir, merged);
    ReadsBackIffStable(read, set_, dir, t);
    assert ValueIn(merged, dir, SourcesDir) == ValueIn(file, dir, SourcesDir);
  }

  /** Two partial updates in a row are one update with the merged request: it goes through
      exactly when the second would, with the same result. */
  lemma TwoUpdatesAreOne(c: Casts, env: Env, s: Settings, first: File, second: File)
    requires Updates(ReaderFor(c, env), s, first)
    ensures var read := ReaderFor(c, env);
      var t := UpdateMqtt(read, s, first);
      && (Updates(read, t, second) <==> Updates(read, s, first + second))
      && Same(UpdateMqtt(read, t, second), UpdateMqtt(read, s, first + second))
  {
    var read := ReaderFor(c, env);
    ReaderIsRegular(c, env);
    var t := UpdateMqtt(read, s, first);
    forall f: Field | f.Mqtt()
      ensures read(f, Merged(t, second, f)) == read(f, Merged(s, first + second, f))
    {
      assert read(f, Merged(s, first, f)) == Some(t(f));
    }
  }
}
