/** What each setting of a loaded config is, and which configs load, setting by setting: the
    environment variable, else the file, else the default. */
module SettingRules {
  import opened Util
  import opened AppConfig

  // -- one kind of setting at a time ------------------------------------------------------

  /** `bool(x)` */
  predicate IsTruth(v: Value, b: bool) {
    match v
    case Null => !b
    case Bool(x) => b == x
    case Int(i) => b <==> i != 0
    case Float(r) => b <==> r != 0.0
    case Str(s) => b <==> |s| > 0
  }

  /** `int(x)` gives `n`: a fraction is cut off. */
  predicate IsInteger(c: Casts, v: Value, n: int) {
    match v
    case Null => false
    case Bool(b) => n == if b then 1 else 0
    case Int(i) => n == i
    case Float(r) => if r >= 0.0 then n as real <= r < n as real + 1.0 else n as real - 1.0 < r <= n as real
    case Str(s) => c.toInt(s) == Some(n)
  }

  predicate HasInteger(c: Casts, v: Value) {
    !v.Null? && (v.Str? ==> c.toInt(v.s).Some?)
  }

  /** `float(x)` gives `x`. */
  predicate IsNumber(c: Casts, v: Value, x: real) {
    match v
    case Null => false
    case Bool(b) => x == if b then 1.0 else 0.0
    case Int(i) => x == i as real
    case Float(r) => x == r
    case Str(s) => c.toFloat(s) == Some(x)
  }

  predicate HasNumber(c: Casts, v: Value) {
    !v.Null? && (v.Str? ==> c.toFloat(v.s).Some?)
  }

  predicate Switch(c: Casts, env: Env, file: File, v: Value, key: string, f: Field, default_: bool) {
    && v.Bool?
    && if key in env then v.b == c.isTrue(env[key]) else if f in file then IsTruth(file[f], v.b) else v.b == default_
  }

  predicate Whole(c: Casts, env: Env, file: File, v: Value, key: string, f: Field, default_: int) {
    && v.Int?
    && if key in env then c.toInt(env[key]) == Some(v.i)
       else if f in file then IsInteger(c, file[f], v.i) else v.i == default_
  }

  /** The file's value must convert even when the variable decides. */
  predicate WholeLoads(c: Casts, env: Env, file: File, key: string, f: Field) {
    (f in file ==> HasInteger(c, file[f])) && (key in env ==> c.toInt(env[key]).Some?)
  }

  predicate Fraction(c: Casts, env: Env, file: File, v: Value, key: string, f: Field, default_: real) {
    && v.Float?
    && if key in env then c.toFloat(env[key]) == Some(v.r)
       else if f in file then IsNumber(c, file[f], v.r) else v.r == default_
  }

  predicate FractionLoads(c: Casts, env: Env, file: File, key: string, f: Field) {
    (f in file ==> HasNumber(c, file[f])) && (key in env ==> c.toFloat(env[key]).Some?)
  }

  /** A limit may be none. */
  predicate Limit(c: Casts, env: Env, file: File, v: Value, key: string, f: Field, default_: real) {
    if key in env then
      if c.isNone(env[key]) then v == Null else v.Float? && c.toFloat(env[key]) == Some(v.r)
    else if f in file then
      if file[f] == Null then v == Null else v.Float? && IsNumber(c, file[f], v.r)
    else v == Float(default_)
  }

  predicate LimitLoads(c: Casts, env: Env, file: File, key: string, f: Field) {
    && (f in file && file[f] != Null ==> HasNumber(c, file[f]))
    && (key in env && !c.isNone(env[key]) ==> c.toFloat(env[key]).Some?)
  }

  /** Text, for which an empty file value means none. */
  predicate Credential(env: Env, file: File, v: Value, key: string, f: Field) {
    if key in env then v == Str(env[key])
    else if f in file && IsTruth(file[f], true) then v == file[f]
    else v == Null
  }

  /** Text: the variable's own, unless the file has a number or truth value there, whose type
      the variable then takes. */
  predicate Text(c: Casts, env: Env, file: File, v: Value, key: string, f: Field, default_: string) {
    var found := if f in file then file[f] else Str(default_);
    if key !in env then v == found
    else
      match found
      case Bool(_) => v == Bool(c.isTrue(env[key]))
      case Int(_) => v.Int? && c.toInt(env[key]) == Some(v.i)
      case Float(_) => v.Float? && c.toFloat(env[key]) == Some(v.r)
      case _ => v == Str(env[key])
  }

  predicate TextLoads(c: Casts, env: Env, file: File, key: string, f: Field) {
    key in env && f in file ==>
      (file[f].Int? ==> c.toInt(env[key]).Some?) && (file[f].Float? ==> c.toFloat(env[key]).Some?)
  }

  /** The setting's variable, and what a missing key stands for. */
  predicate Row(f: Field, key: string, dir: string, default_: Value) {
    f.EnvKey() == Some(key) && DefaultIn(dir, f) == default_
  }

  lemma SwitchLoaded(c: Casts, env: Env, dir: string, file: File, f: Field, key: string, default_: bool)
    requires Row(f, key, dir, Bool(default_)) && f.Kind() == AsBool
    ensures var v := Resolve(c, env, f, ValueIn(file, dir, f));
      v.Some? && Switch(c, env, file, v.value, key, f, default_)
  {
  }

  lemma WholeLoaded(c: Casts, env: Env, dir: string, file: File, f: Field, key: string, default_: int)
    requires Row(f, key, dir, Int(default_)) && f.Kind() == AsInt
    ensures var v := Resolve(c, env, f, ValueIn(file, dir, f));
      (v.Some? <==> WholeLoads(c, env, file, key, f)) && (v.Some? ==> Whole(c, env, file, v.value, key, f, default_))
  {
    IntegerCut(c, ValueIn(file, dir, f));
  }

  lemma IntegerCut(c: Casts, v: Value)
    ensures ToInt(c, v).Some? ==> IsInteger(c, v, ToInt(c, v).value)
    ensures ToInt(c, v).Some? <==> HasInteger(c, v)
  {
  }

  lemma FractionLoaded(c: Casts, env: Env, dir: string, file: File, f: Field, key: string, default_: real)
    requires Row(f, key, dir, Float(default_)) && f.Kind() == AsFloat
    ensures var v := Resolve(c, env, f, ValueIn(file, dir, f));
      && (v.Some? <==> FractionLoads(c, env, file, key, f))
      && (v.Some? ==> Fraction(c, env, file, v.value, key, f, default_))
  {
  }

  lemma LimitLoaded(c: Casts, env: Env, dir: string, file: File, f: Field, key: string, default_: real)
    requires Row(f, key, dir, Float(default_)) && f.Kind() == OptionalFloat
    ensures var v := Resolve(c, env, f, ValueIn(file, dir, f));
      (v.Some? <==> LimitLoads(c, env, file, key, f)) && (v.Some? ==> Limit(c, env, file, v.value, key, f, default_))
  {
  }

  lemma CredentialLoaded(c: Casts, env: Env, dir: string, file: File, f: Field, key: string)
    requires Row(f, key, dir, Null) && f.Kind() == OrNone
    ensures var v := Resolve(c, env, f, ValueIn(file, dir, f));
      v.Some? && Credential(env, file, v.value, key, f)
  {
  }

  lemma TextLoaded(c: Casts, env: Env, dir: string, file: File, f: Field, key: string, default_: string)
    requires Row(f, key, dir, Str(default_)) && f.Kind() == AsIs
    ensures var v := Resolve(c, env, f, ValueIn(file, dir, f));
      (v.Some? <==> TextLoads(c, env, file, key, f)) && (v.Some? ==> Text(c, env, file, v.value, key, f, default_))
  {
  }

  /** What a setting resolves to, for every setting. */
  type Resolver = Field -> Option<Value>

  function ResolverFor(c: Casts, env: Env, dir: string, file: File): Resolver {
    (f: Field) => Resolve(c, env, f, ValueIn(file, dir, f))
  }

  /** The setting resolves as its kind says. */
  ghost predicate AsKind(got: Resolver, c: Casts, env: Env, dir: string, file: File, f: Field) {
    match f.EnvKey()
    case None => got(f) == Some(ValueIn(file, dir, f))
    case Some(key) =>
      match f.Kind()
      case AsBool => got(f).Some? && (DefaultIn(dir, f).Bool? ==>
        Switch(c, env, file, got(f).value, key, f, DefaultIn(dir, f).b))
      case AsInt => DefaultIn(dir, f).Int? ==>
        (got(f).Some? <==> WholeLoads(c, env, file, key, f)) &&
        (got(f).Some? ==> Whole(c, env, file, got(f).value, key, f, DefaultIn(dir, f).i))
      case AsFloat => DefaultIn(dir, f).Float? ==>
        (got(f).Some? <==> FractionLoads(c, env, file, key, f)) &&
        (got(f).Some? ==> Fraction(c, env, file, got(f).value, key, f, DefaultIn(dir, f).r))
      case OptionalFloat => DefaultIn(dir, f).Float? ==>
        (got(f).Some? <==> LimitLoads(c, env, file, key, f)) &&
        (got(f).Some? ==> Limit(c, env, file, got(f).value, key, f, DefaultIn(dir, f).r))
      case OrNone => got(f).Some? && (DefaultIn(dir, f).Null? ==> Credential(env, file, got(f).value, key, f))
      case AsIs => DefaultIn(dir, f).Str? ==>
        (got(f).Some? <==> TextLoads(c, env, file, key, f)) &&
        (got(f).Some? ==> Text(c, env, file, got(f).value, key, f, DefaultIn(dir, f).s))
  }

  lemma ResolvesAsKind(c: Casts, env: Env, dir: string, file: File, f: Field)
    ensures AsKind(ResolverFor(c, env, dir, file), c, env, dir, file, f)
  {
    if f.Kind().AsInt? || f.Kind().AsFloat? || f.Kind().OptionalFloat? {
      NumberAsKind(c, env, dir, file, f);
    } else if f.EnvKey().Some? {
      var key, d := f.EnvKey().value, DefaultIn(dir, f);
      if f.Kind().AsBool? && d.Bool? { SwitchLoaded(c, env, dir, file, f, key, d.b); }
      if f.Kind().OrNone? && d.Null? { CredentialLoaded(c, env, dir, file, f, key); }
      if f.Kind().AsIs? && d.Str? { TextLoaded(c, env, dir, file, f, key, d.s); }
    }
  }

  lemma NumberAsKind(c: Casts, env: Env, dir: string, file: File, f: Field)
    requires f.Kind().AsInt? || f.Kind().AsFloat? || f.Kind().OptionalFloat?
    ensures AsKind(ResolverFor(c, env, dir, file), c, env, dir, file, f)
  {
    var key, d := f.EnvKey().value, DefaultIn(dir, f);
    if f.Kind().AsInt? && d.Int? { WholeLoaded(c, env, dir, file, f, key, d.i); }
    if f.Kind().AsFloat? && d.Float? { FractionLoaded(c, env, dir, file, f, key, d.r); }
    if f.Kind().OptionalFloat? && d.Float? { LimitLoaded(c, env, dir, file, f, key, d.r); }
  }

  // -- the settings -----------------------------------------------------------------------------

  /** The MQTT section converts. */
  ghost predicate MqttLoads(c: Casts, env: Env, file: File) {
    && TextLoads(c, env, file, "MQTT_HOST", MqttHost)
    && WholeLoads(c, env, file, "MQTT_PORT", MqttPort)
    && TextLoads(c, env, file, "MQTT_TOPIC", MqttTopic)
    && TextLoads(c, env, file, "MQTT_CLIENT_ID", MqttClientId)
    && TextLoads(c, env, file, "MQTT_DISCOVERY_PREFIX", MqttDiscoveryPrefix)
  }

  ghost predicate TextsLoad(c: Casts, env: Env, file: File) {
    && TextLoads(c, env, file, "SOURCES_DIR", SourcesDir)
    && TextLoads(c, env, file, "SNIPPET_DIR", SnippetDir)
    && TextLoads(c, env, file, "LOG_LEVEL", LogLevel)
    && TextLoads(c, env, file, "WEB_HOST", WebHost)
  }

  ghost predicate NumbersLoad(c: Casts, env: Env, file: File) {
    && WholeLoads(c, env, file, "WEB_PORT", WebPort)
    && LimitLoads(c, env, file, "CLEANUP_MAX_AGE_DAYS", CleanupMaxAgeDays)
    && LimitLoads(c, env, file, "CLEANUP_MAX_SPACE_MB", CleanupMaxSpaceMb)
    && FractionLoads(c, env, file, "CLEANUP_CHECK_INTERVAL_MINUTES", CleanupCheckIntervalMinutes)
  }

  ghost predicate MqttAsGiven(c: Casts, env: Env, file: File, s: Settings) {
    && Switch(c, env, file, s(MqttEnabled), "MQTT_ENABLED", MqttEnabled, false)
    && Whole(c, env, file, s(MqttPort), "MQTT_PORT", MqttPort, 1883)
    && Credential(env, file, s(MqttUsername), "MQTT_USERNAME", MqttUsername)
    && Credential(env, file, s(MqttPassword), "MQTT_PASSWORD", MqttPassword)
    && Switch(c, env, file, s(MqttDiscovery), "MQTT_DISCOVERY", MqttDiscovery, true)
  }

  ghost predicate MqttTextsAsGiven(c: Casts, env: Env, file: File, s: Settings) {
    && Text(c, env, file, s(MqttHost), "MQTT_HOST", MqttHost, "localhost")
    && Text(c, env, file, s(MqttTopic), "MQTT_TOPIC", MqttTopic, "bark_detector")
    && Text(c, env, file, s(MqttClientId), "MQTT_CLIENT_ID", MqttClientId, "bark_detector")
    && Text(c, env, file, s(MqttDiscoveryPrefix), "MQTT_DISCOVERY_PREFIX", MqttDiscoveryPrefix, "homeassistant")
  }

  ghost predicate TextsAsGiven(c: Casts, env: Env, dir: string, file: File, s: Settings) {
    && Text(c, env, file, s(SourcesDir), "SOURCES_DIR", SourcesDir, dir)
    && Text(c, env, file, s(SnippetDir), "SNIPPET_DIR", SnippetDir, "/media/bark_snippets")
    && s(FfmpegPath) == (if FfmpegPath in file then file[FfmpegPath] else Str("ffmpeg"))
    && Text(c, env, file, s(LogLevel), "LOG_LEVEL", LogLevel, "INFO")
    && Text(c, env, file, s(WebHost), "WEB_HOST", WebHost, "0.0.0.0")
  }

  ghost predicate WebAsGiven(c: Casts, env: Env, file: File, s: Settings) {
    && Switch(c, env, file, s(WebEnabled), "WEB_ENABLED", WebEnabled, true)
    && Whole(c, env, file, s(WebPort), "WEB_PORT", WebPort, 8099)
  }

  ghost predicate CleanupAsGiven(c: Casts, env: Env, file: File, s: Settings) {
    && Limit(c, env, file, s(CleanupMaxAgeDays), "CLEANUP_MAX_AGE_DAYS", CleanupMaxAgeDays, 30.0)
    && Limit(c, env, file, s(CleanupMaxSpaceMb), "CLEANUP_MAX_SPACE_MB", CleanupMaxSpaceMb, 100.0)
    && Fraction(c, env, file, s(CleanupCheckIntervalMinutes), "CLEANUP_CHECK_INTERVAL_MINUTES",
                CleanupCheckIntervalMinutes, 15.0)
  }

  predicate IsText(f: Field) { f.SourcesDir? || f.SnippetDir? || f.FfmpegPath? || f.LogLevel? || f.WebHost? }

  lemma MqttTextsRead(got: Resolver, c: Casts, env: Env, dir: string, file: File)
    requires forall f: Field :: AsKind(got, c, env, dir, file, f)
    ensures got(MqttHost).Some? <==> TextLoads(c, env, file, "MQTT_HOST", MqttHost)
    ensures got(MqttTopic).Some? <==> TextLoads(c, env, file, "MQTT_TOPIC", MqttTopic)
    ensures got(MqttClientId).Some? <==> TextLoads(c, env, file, "MQTT_CLIENT_ID", MqttClientId)
    ensures got(MqttDiscoveryPrefix).Some? <==> TextLoads(c, env, file, "MQTT_DISCOVERY_PREFIX", MqttDiscoveryPrefix)
  {
    assert AsKind(got, c, env, dir, file, MqttHost) && AsKind(got, c, env, dir, file, MqttDiscoveryPrefix);
    assert AsKind(got, c, env, dir, file, MqttTopic) && AsKind(got, c, env, dir, file, MqttClientId);
  }

  lemma MqttReads(got: Resolver, c: Casts, env: Env, dir: string, file: File)
    requires forall f: Field :: AsKind(got, c, env, dir, file, f)
    ensures (forall f: Field :: f.Mqtt() ==> got(f).Some?) <==> MqttLoads(c, env, file)
  {
    MqttTextsRead(got, c, env, dir, file);
    assert AsKind(got, c, env, dir, file, MqttPort);
    assert AsKind(got, c, env, dir, file, MqttEnabled) && AsKind(got, c, env, dir, file, MqttDiscovery);
    assert AsKind(got, c, env, dir, file, MqttUsername) && AsKind(got, c, env, dir, file, MqttPassword);
  }

  lemma TextsRead(got: Resolver, c: Casts, env: Env, dir: string, file: File)
    requires forall f: Field :: AsKind(got, c, env, dir, file, f)
    ensures (forall f: Field :: IsText(f) ==> got(f).Some?) <==> TextsLoad(c, env, file)
  {
    assert AsKind(got, c, env, dir, file, SourcesDir) && AsKind(got, c, env, dir, file, SnippetDir);
    assert AsKind(got, c, env, dir, file, LogLevel) && AsKind(got, c, env, dir, file, WebHost);
    assert AsKind(got, c, env, dir, file, FfmpegPath);
  }

  lemma WebRead(got: Resolver, c: Casts, env: Env, dir: string, file: File)
    requires forall f: Field :: AsKind(got, c, env, dir, file, f)
    ensures got(WebEnabled).Some? && (got(WebPort).Some? <==> WholeLoads(c, env, file, "WEB_PORT", WebPort))
    ensures Switch(c, env, file, got(WebEnabled).value, "WEB_ENABLED", WebEnabled, true)
    ensures got(WebPort).Some? ==> Whole(c, env, file, got(WebPort).value, "WEB_PORT", WebPort, 8099)
  {
    assert AsKind(got, c, env, dir, file, WebEnabled) && AsKind(got, c, env, dir, file, WebPort);
  }

  lemma LimitsRead(got: Resolver, c: Casts, env: Env, dir: string, file: File)
    requires forall f: Field :: AsKind(got, c, env, dir, file, f)
    ensures var v, key := got(CleanupMaxAgeDays), "CLEANUP_MAX_AGE_DAYS";
      && (v.Some? <==> LimitLoads(c, env, file, key, CleanupMaxAgeDays))
      && (v.Some? ==> Limit(c, env, file, v.value, key, CleanupMaxAgeDays, 30.0))
    ensures var v, key := got(CleanupMaxSpaceMb), "CLEANUP_MAX_SPACE_MB";
      && (v.Some? <==> LimitLoads(c, env, file, key, CleanupMaxSpaceMb))
      && (v.Some? ==> Limit(c, env, file, v.value, key, CleanupMaxSpaceMb, 100.0))
  {
    assert AsKind(got, c, env, dir, file, CleanupMaxAgeDays) && AsKind(got, c, env, dir, file, CleanupMaxSpaceMb);
  }

  lemma NumbersRead(got: Resolver, c: Casts, env: Env, dir: string, file: File)
    requires forall f: Field :: AsKind(got, c, env, dir, file, f)
    ensures (forall f: Field :: !f.Mqtt() && !IsText(f) ==> got(f).Some?) <==> NumbersLoad(c, env, file)
  {
    WebRead(got, c, env, dir, file);
    LimitsRead(got, c, env, dir, file);
    assert AsKind(got, c, env, dir, file, CleanupCheckIntervalMinutes);
  }

  /** A config loads exactly when each number it gives, and each variable set for a number,
      converts. */
  lemma LoadsIff(c: Casts, env: Env, dir: string, file: File)
    ensures Loads(ReaderFor(c, env), dir, file) <==>
      MqttLoads(c, env, file) && TextsLoad(c, env, file) && NumbersLoad(c, env, file)
  {
    var got := ResolverFor(c, env, dir, file);
    forall f: Field ensures AsKind(got, c, env, dir, file, f) {
      ResolvesAsKind(c, env, dir, file, f);
    }
    MqttReads(got, c, env, dir, file);
    TextsRead(got, c, env, dir, file);
    NumbersRead(got, c, env, dir, file);
    AllRead(got, ReaderFor(c, env), dir, file);
  }

  lemma AllRead(got: Resolver, read: Reader, dir: string, file: File)
    requires forall f: Field :: got(f) == read(f, ValueIn(file, dir, f))
    ensures Loads(read, dir, file) <==>
      && (forall f: Field :: f.Mqtt() ==> got(f).Some?)
      && (forall f: Field :: IsText(f) ==> got(f).Some?)
      && (forall f: Field :: !f.Mqtt() && !IsText(f) ==> got(f).Some?)
  {
    if forall f: Field :: got(f).Some? {
      forall f: Field ensures read(f, ValueIn(file, dir, f)).Some? { assert got(f).Some?; }
    }
  }

  lemma MqttLoaded(got: Resolver, c: Casts, env: Env, dir: string, file: File, s: Settings)
    requires forall f: Field :: AsKind(got, c, env, dir, file, f) && got(f) == Some(s(f))
    ensures MqttAsGiven(c, env, file, s)
  {
    assert AsKind(got, c, env, dir, file, MqttPort);
    assert AsKind(got, c, env, dir, file, MqttEnabled) && AsKind(got, c, env, dir, file, MqttDiscovery);
    assert AsKind(got, c, env, dir, file, MqttUsername) && AsKind(got, c, env, dir, file, MqttPassword);
  }

  lemma MqttTextsLoaded(got: Resolver, c: Casts, env: Env, dir: string, file: File, s: Settings)
    requires forall f: Field :: AsKind(got, c, env, dir, file, f) && got(f) == Some(s(f))
    ensures MqttTextsAsGiven(c, env, file, s)
  {
    assert AsKind(got, c, env, dir, file, MqttHost) && AsKind(got, c, env, dir, file, MqttDiscoveryPrefix);
    assert AsKind(got, c, env, dir, file, MqttTopic) && AsKind(got, c, env, dir, file, MqttClientId);
  }

  lemma TextsLoaded(got: Resolver, c: Casts, env: Env, dir: string, file: File, s: Settings)
    requires forall f: Field :: AsKind(got, c, env, dir, file, f) && got(f) == Some(s(f))
    ensures TextsAsGiven(c, env, dir, file, s)
  {
    assert AsKind(got, c, env, dir, file, SourcesDir) && AsKind(got, c, env, dir, file, SnippetDir);
    assert AsKind(got, c, env, dir, file, LogLevel) && AsKind(got, c, env, dir, file, WebHost);
    assert AsKind(got, c, env, dir, file, FfmpegPath);
  }

  lemma WebLoaded(got: Resolver, c: Casts, env: Env, dir: string, file: File, s: Settings)
    requires forall f: Field :: AsKind(got, c, env, dir, file, f) && got(f) == Some(s(f))
    ensures WebAsGiven(c, env, file, s)
  {
    WebRead(got, c, env, dir, file);
  }

  lemma CleanupLoaded(got: Resolver, c: Casts, env: Env, dir: string, file: File, s: Settings)
    requires forall f: Field :: AsKind(got, c, env, dir, file, f) && got(f) == Some(s(f))
    ensures CleanupAsGiven(c, env, file, s)
  {
    LimitsRead(got, c, env, dir, file);
    assert AsKind(got, c, env, dir, file, CleanupCheckIntervalMinutes);
  }

  /** Every setting of a config that loads: its variable's text as that setting is read, else the
      file's value so read, else the default. */
  lemma LoadedAsGiven(c: Casts, env: Env, dir: string, file: File)
    requires Loads(ReaderFor(c, env), dir, file)
    ensures var s := Load(ReaderFor(c, env), dir, file);
      && MqttAsGiven(c, env, file, s) && MqttTextsAsGiven(c, env, file, s)
      && TextsAsGiven(c, env, dir, file, s) && WebAsGiven(c, env, file, s) && CleanupAsGiven(c, env, file, s)
  {
    var got, s := ResolverFor(c, env, dir, file), Load(ReaderFor(c, env), dir, file);
    forall f: Field ensures AsKind(got, c, env, dir, file, f) && got(f) == Some(s(f)) {
      ResolvesAsKind(c, env, dir, file, f);
      assert ReaderFor(c, env)(f, ValueIn(file, dir, f)).Some?;
    }
    MqttLoaded(got, c, env, dir, file, s);
    MqttTextsLoaded(got, c, env, dir, file, s);
    TextsLoaded(got, c, env, dir, file, s);
    WebLoaded(got, c, env, dir, file, s);
    CleanupLoaded(got, c, env, dir, file, s);
  }

  /** A dump holds exactly the settings that no variable sets and that are not what an empty file
      under an empty environment gives, as they are. */
  lemma DumpedIff(c: Casts, env: Env, s: Settings, f: Field)
    ensures var empty := Load(ReaderFor(c, map[]), BUILT_IN_DIR, map[]);
      f in Dump(SetIn(env), s) <==>
        !(f.EnvKey().Some? && f.EnvKey().value in env) && s(f) != empty(f)
    ensures f in Dump(SetIn(env), s) ==> Dump(SetIn(env), s)[f] == s(f)
  {
    DefaultReads(c, map[], f);
    assert Load(ReaderFor(c, map[]), BUILT_IN_DIR, map[])(f) ==
      Got(ReaderFor(c, map[])(f, ValueIn(map[], BUILT_IN_DIR, f)));
  }
}
