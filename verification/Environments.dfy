/** What the config file can show of the environment: the dump never holds a value that the
    environment supplied, but whether an update is refused can depend on one. */
module Environments {
  import opened Util
  import opened AppConfig

  // -- when an update is accepted --------------------------------------------------------

  /** Every MQTT setting asked for can be read. */
  ghost predicate Converts(read: Reader, request: File) {
    forall f: Field :: f in request && f.Mqtt() ==> read(f, request[f]).Some?
  }

  ghost function Converting(read: Reader, requests: seq<File>): seq<File> {
    if requests == [] then []
    else Converting(read, Front(requests)) + if Converts(read, Last(requests)) then [Last(requests)] else []
  }

  lemma UpdatesIffConverts(read: Reader, set_: Setter, dir: string, file: File, s: Settings, request: File)
    requires Regular(read, set_) && Loads(read, dir, file) && Same(s, Load(read, dir, file))
    ensures Updates(read, s, request) <==> Converts(read, request)
  {
    forall f: Field ensures read(f, s(f)).Some? {
      assert read(f, ValueIn(file, dir, f)).Some? && s(f) == Load(read, dir, file)(f);
    }
    if Updates(read, s, request) {
      forall f: Field | f in request && f.Mqtt() ensures read(f, request[f]).Some? {
        assert read(f, Merged(s, request, f)).Some?;
      }
    }
  }

  /** Whether an update goes through does not depend on the updates before it. */
  lemma {:induction false} AcceptedConverting(read: Reader, set_: Setter, dir: string, file: File, requests: seq<File>)
    requires Regular(read, set_) && Loads(read, dir, file)
    ensures Accepted(read, Load(read, dir, file), requests) == Converting(read, requests)
  {
    if requests != [] {
      var s := Load(read, dir, file);
      var done := Accepted(read, s, Front(requests));
      AcceptedConverting(read, set_, dir, file, Front(requests));
      UpdatesAreOverlay(read, set_, dir, file, done);
      UpdatesIffConverts(read, set_, dir, file + MqttKeys(AllAsked(done)), UpdateAll(read, s, done), Last(requests));
    }
  }

  /** What is written to the config file after the requests. */
  ghost function Written(c: Casts, env: Env, dir: string, file: File, requests: seq<File>): File {
    var read := ReaderFor(c, env);
    var s := Load(read, dir, file);
    Dump(SetIn(env), UpdateAll(read, s, Accepted(read, s, requests)))
  }

  ghost function Verdicts(c: Casts, env: Env, dir: string, file: File, requests: seq<File>): seq<File> {
    Accepted(ReaderFor(c, env), Load(ReaderFor(c, env), dir, file), requests)
  }

  /** Environments that set the same variables and accept the same updates write the same file. */
  lemma SameVerdictsSameFile(c: Casts, env: Env, env': Env, dir: string, file: File, requests: seq<File>)
    requires env.Keys == env'.Keys
    requires Verdicts(c, env, dir, file, requests) == Verdicts(c, env', dir, file, requests)
    ensures Written(c, env, dir, file, requests) == Written(c, env', dir, file, requests)
  {
    SameVariables(c, env, env');
    UpdatesAgree(SetIn(env), ReaderFor(c, env), ReaderFor(c, env'), dir, file, Verdicts(c, env, dir, file, requests));
  }

  // -- which updates can be refused on account of the environment ------------------------------

  ghost predicate FileConverts(c: Casts, request: File) {
    forall f: Field :: f in request && f.Mqtt() ==> FromFile(c, f, request[f]).Some?
  }

  /** A number for a text setting that the environment sets, where the config file has not
      already made the environment's text a number of that kind. */
  predicate Risky(set_: Setter, file: File, request: File, f: Field) {
    && f in request && f.Mqtt() && f.Kind().AsIs? && set_(f)
    && ((request[f].Int? && !(f in file && file[f].Int?))
        || (request[f].Float? && !(f in file && (file[f].Int? || file[f].Float?))))
  }

  ghost predicate Safe(set_: Setter, file: File, request: File) {
    forall f: Field :: !Risky(set_, file, request, f)
  }

  /** What is used of Python's conversions: text for an integer is also text for a float, and
      there is text for both, for a float alone, and for neither. */
  ghost predicate PythonLike(c: Casts, number: string, decimal: string, word: string) {
    && (forall x :: c.toInt(x).Some? ==> c.toFloat(x).Some?)
    && c.toInt(number).Some? && c.toInt(decimal).None? && c.toFloat(decimal).Some? && c.toFloat(word).None?
  }

  lemma PythonLikeExample() returns (c: Casts)
    ensures PythonLike(c, "7", "7.5", "barks")
  {
    c := Casts(x => if x == "7" then Some(7) else None,
               x => if x == "7" then Some(7.0) else if x == "7.5" then Some(7.5) else None, _ => false, _ => false);
  }

  lemma SafeReads(c: Casts, env: Env, dir: string, file: File, request: File, f: Field)
    requires forall x :: c.toInt(x).Some? ==> c.toFloat(x).Some?
    requires Resolve(c, env, f, ValueIn(file, dir, f)).Some?
    requires f in request && f.Mqtt() && FromFile(c, f, request[f]).Some? && !Risky(SetIn(env), file, request, f)
    ensures Resolve(c, env, f, request[f]).Some?
  {
  }

  lemma ConvertsIff(c: Casts, env: Env, dir: string, file: File, request: File)
    requires forall x :: c.toInt(x).Some? ==> c.toFloat(x).Some?
    requires Loads(ReaderFor(c, env), dir, file)
    ensures Converts(ReaderFor(c, env), request) <==>
      FileConverts(c, request) &&
      forall f: Field :: Risky(SetIn(env), file, request, f) ==> Resolve(c, env, f, request[f]).Some?
  {
    var read := ReaderFor(c, env);
    if Converts(read, request) {
      forall f: Field | f in request && f.Mqtt() ensures Resolve(c, env, f, request[f]).Some? {
        assert read(f, request[f]).Some?;
      }
    }
    if FileConverts(c, request) &&
       forall f: Field :: Risky(SetIn(env), file, request, f) ==> Resolve(c, env, f, request[f]).Some?
    {
      forall f: Field | f in request && f.Mqtt() ensures read(f, request[f]).Some? {
        if !Risky(SetIn(env), file, request, f) {
          assert read(f, ValueIn(file, dir, f)).Some?;
          SafeReads(c, env, dir, file, request, f);
        }
      }
    }
  }

  // -- other texts in the same variables -----------------------------------------------------------

  const TEXT_KEYS := {"MQTT_HOST", "MQTT_TOPIC", "MQTT_CLIENT_ID", "MQTT_DISCOVERY_PREFIX"}

  predicate TextField(f: Field) { f.Mqtt() && f.Kind().AsIs? }

  /** The same variables, with `text` in those of the MQTT text settings but `special` in `key`. */
  function Retext(env: Env, text: string, key: string, special: string): Env {
    map k | k in env :: if k == key then special else if k in TEXT_KEYS then text else env[k]
  }

  lemma TextFieldKeys(f: Field)
    ensures f.EnvKey().Some? ==> (f.EnvKey().value in TEXT_KEYS <==> TextField(f))
    ensures TextField(f) ==> f.EnvKey().Some?
  {
  }

  lemma KeysDistinct(f: Field, g: Field)
    requires f.EnvKey().Some? && f.EnvKey() == g.EnvKey()
    ensures f == g
  {
  }

  lemma RetextAt(env: Env, text: string, at: Field, special: string, f: Field)
    requires TextField(at) && at.EnvKey().Some?
    ensures var env' := Retext(env, text, at.EnvKey().value, special);
      EnvOf(env', f) ==
        if EnvOf(env, f).None? then None
        else if f == at then Some(special) else if TextField(f) then Some(text) else EnvOf(env, f)
  {
    TextFieldKeys(f);
    if f.EnvKey() == at.EnvKey() { KeysDistinct(f, at); }
  }

  /** A text fits a file value if it can be made a number wherever that value is one. */
  predicate Fits(c: Casts, text: string, v: Value) {
    (v.Int? ==> c.toInt(text).Some?) && (v.Float? ==> c.toFloat(text).Some?)
  }

  lemma RetextLoads(c: Casts, env: Env, dir: string, file: File, text: string, at: Field, special: string)
    requires Loads(ReaderFor(c, env), dir, file) && TextField(at) && at.EnvKey().Some?
    requires c.toInt(text).Some? && c.toFloat(text).Some? && Fits(c, special, ValueIn(file, dir, at))
    ensures LoadsUnder(c, env.Keys, Retext(env, text, at.EnvKey().value, special), dir, file)
  {
    var env' := Retext(env, text, at.EnvKey().value, special);
    assert env'.Keys == env.Keys;
    forall f: Field ensures ReaderFor(c, env')(f, ValueIn(file, dir, f)).Some? {
      assert ReaderFor(c, env)(f, ValueIn(file, dir, f)).Some?;
      RetextAt(env, text, at, special, f);
      RetextReads(c, env, env', f, ValueIn(file, dir, f), if f == at then special else text);
    }
  }

  lemma RetextReads(c: Casts, env: Env, env': Env, f: Field, v: Value, text: string)
    requires Resolve(c, env, f, v).Some? && (TextField(f) ==> Fits(c, text, v))
    requires EnvOf(env', f) ==
      if EnvOf(env, f).None? then None else if TextField(f) then Some(text) else EnvOf(env, f)
    ensures Resolve(c, env', f, v).Some?
  {
  }

  ghost predicate LoadsUnder(c: Casts, keys: set<string>, env: Env, dir: string, file: File) {
    env.Keys == keys && Loads(ReaderFor(c, env), dir, file)
  }

  lemma SameRisks(c: Casts, env: Env, env': Env, file: File, request: File)
    requires env.Keys == env'.Keys
    ensures forall f: Field :: Risky(SetIn(env), file, request, f) == Risky(SetIn(env'), file, request, f)
  {
    SameVariables(c, env, env');
  }

  /** Two environments under which the config loads: one accepts the request if anything
      does, the other refuses it. */
  lemma RiskSplits(c: Casts, env: Env, dir: string, file: File, request: File, at: Field,
                   number: string, decimal: string, word: string)
    returns (yes: Env, no: Env)
    requires PythonLike(c, number, decimal, word) && Loads(ReaderFor(c, env), dir, file)
    requires Risky(SetIn(env), file, request, at)
    ensures LoadsUnder(c, env.Keys, yes, dir, file) && LoadsUnder(c, env.Keys, no, dir, file)
    ensures forall r :: Converts(ReaderFor(c, yes), r) <==> FileConverts(c, r)
    ensures !Converts(ReaderFor(c, no), request)
  {
    TextFieldKeys(at);
    var special := if ValueIn(file, dir, at).Float? then decimal else word;
    yes, no := Retext(env, number, at.EnvKey().value, number), Retext(env, number, at.EnvKey().value, special);
    RiskyText(c, dir, file, request, at, number, decimal, word);
    RetextLoads(c, env, dir, file, number, at, number);
    RetextLoads(c, env, dir, file, number, at, special);
    UnfitRefused(c, env, request, number, at, special);
    forall r ensures Converts(ReaderFor(c, yes), r) <==> FileConverts(c, r) {
      NumberAccepts(c, env, dir, file, r, number, at);
    }
  }

  lemma UnfitRefused(c: Casts, env: Env, request: File, number: string, at: Field, special: string)
    requires TextField(at) && at.EnvKey().Some? && SetIn(env)(at)
    requires at in request && !Fits(c, special, request[at])
    ensures !Converts(ReaderFor(c, Retext(env, number, at.EnvKey().value, special)), request)
  {
    var no := Retext(env, number, at.EnvKey().value, special);
    RetextAt(env, number, at, special, at);
    assert !ReaderFor(c, no)(at, request[at]).Some?;
  }

  lemma NumberAccepts(c: Casts, env: Env, dir: string, file: File, request: File, number: string, at: Field)
    requires c.toInt(number).Some? && forall x :: c.toInt(x).Some? ==> c.toFloat(x).Some?
    requires TextField(at) && at.EnvKey().Some?
    requires Loads(ReaderFor(c, Retext(env, number, at.EnvKey().value, number)), dir, file)
    ensures Converts(ReaderFor(c, Retext(env, number, at.EnvKey().value, number)), request) <==>
      FileConverts(c, request)
  {
    var yes := Retext(env, number, at.EnvKey().value, number);
    ConvertsIff(c, yes, dir, file, request);
    forall f: Field | Risky(SetIn(yes), file, request, f) ensures Resolve(c, yes, f, request[f]).Some? {
      RetextAt(env, number, at, number, f);
    }
  }

  lemma RiskyText(c: Casts, dir: string, file: File, request: File, at: Field,
                  number: string, decimal: string, word: string)
    requires PythonLike(c, number, decimal, word) && TextField(at) && at in request
    requires (request[at].Int? && !(at in file && file[at].Int?)) ||
             (request[at].Float? && !(at in file && (file[at].Int? || file[at].Float?)))
    ensures var special := if ValueIn(file, dir, at).Float? then decimal else word;
      Fits(c, special, ValueIn(file, dir, at)) && !Fits(c, special, request[at])
  {
  }

  /** No verdict on these requests tells environments apart that set the same variables and
      under which the config loads. */
  ghost predicate VerdictsHide(c: Casts, keys: set<string>, dir: string, file: File, requests: seq<File>) {
    forall env, env' | LoadsUnder(c, keys, env, dir, file) && LoadsUnder(c, keys, env', dir, file) ::
      Verdicts(c, env, dir, file, requests) == Verdicts(c, env', dir, file, requests)
  }

  lemma {:induction false} FewerConverting(read: Reader, read': Reader, requests: seq<File>, request: File)
    requires forall r :: Converts(read', r) ==> Converts(read, r)
    ensures |Converting(read', requests)| <= |Converting(read, requests)|
    ensures request in requests && Converts(read, request) && !Converts(read', request) ==>
      |Converting(read', requests)| < |Converting(read, requests)|
  {
    if requests != [] { FewerConverting(read, read', Front(requests), request); }
  }

  lemma {:induction false} SameConverting(read: Reader, read': Reader, requests: seq<File>)
    requires forall r :: r in requests ==> (Converts(read, r) <==> Converts(read', r))
    ensures Converting(read, requests) == Converting(read', requests)
  {
    if requests != [] { SameConverting(read, read', Front(requests)); }
  }

  /** A request whose fate the environment cannot decide: it asks for no risky number, or one of
      its values cannot be read whatever the environment. */
  ghost predicate Decided(c: Casts, set_: Setter, file: File, request: File) {
    FileConverts(c, request) ==> Safe(set_, file, request)
  }

  lemma DecidedVerdict(c: Casts, env: Env, env': Env, dir: string, file: File, request: File)
    requires forall x :: c.toInt(x).Some? ==> c.toFloat(x).Some?
    requires Loads(ReaderFor(c, env'), dir, file) && env.Keys == env'.Keys && Decided(c, SetIn(env), file, request)
    ensures Converts(ReaderFor(c, env'), request) <==> FileConverts(c, request)
  {
    ConvertsIff(c, env', dir, file, request);
    SameRisks(c, env, env', file, request);
  }

  /** The verdicts on a series of requests hide the environment exactly when the environment can
      decide the fate of none of them. */
  lemma VerdictsHideIff(c: Casts, env: Env, dir: string, file: File, requests: seq<File>,
                        number: string, decimal: string, word: string)
    requires PythonLike(c, number, decimal, word) && Loads(ReaderFor(c, env), dir, file)
    ensures VerdictsHide(c, env.Keys, dir, file, requests) <==>
      forall r :: r in requests ==> Decided(c, SetIn(env), file, r)
  {
    if forall r :: r in requests ==> Decided(c, SetIn(env), file, r) {
      forall one, two | LoadsUnder(c, env.Keys, one, dir, file) && LoadsUnder(c, env.Keys, two, dir, file)
        ensures Verdicts(c, one, dir, file, requests) == Verdicts(c, two, dir, file, requests)
      {
        DecidedVerdictsAgree(c, env, one, two, dir, file, requests);
      }
    } else {
      var r :| r in requests && !Decided(c, SetIn(env), file, r);
      var at :| Risky(SetIn(env), file, r, at);
      var yes, no := RiskSplits(c, env, dir, file, r, at, number, decimal, word);
      VerdictsSplit(c, yes, no, dir, file, requests, r);
    }
  }

  lemma DecidedVerdictsAgree(c: Casts, env: Env, one: Env, two: Env, dir: string, file: File, requests: seq<File>)
    requires forall x :: c.toInt(x).Some? ==> c.toFloat(x).Some?
    requires LoadsUnder(c, env.Keys, one, dir, file) && LoadsUnder(c, env.Keys, two, dir, file)
    requires forall r :: r in requests ==> Decided(c, SetIn(env), file, r)
    ensures Verdicts(c, one, dir, file, requests) == Verdicts(c, two, dir, file, requests)
  {
    forall r | r in requests ensures Converts(ReaderFor(c, one), r) <==> Converts(ReaderFor(c, two), r) {
      DecidedVerdict(c, env, one, dir, file, r);
      DecidedVerdict(c, env, two, dir, file, r);
    }
    ReaderIsRegular(c, one);
    ReaderIsRegular(c, two);
    AcceptedConverting(ReaderFor(c, one), SetIn(one), dir, file, requests);
    AcceptedConverting(ReaderFor(c, two), SetIn(two), dir, file, requests);
    SameConverting(ReaderFor(c, one), ReaderFor(c, two), requests);
  }

  lemma VerdictsSplit(c: Casts, yes: Env, no: Env, dir: string, file: File, requests: seq<File>, request: File)
    requires Loads(ReaderFor(c, yes), dir, file) && Loads(ReaderFor(c, no), dir, file)
    requires forall r :: Converts(ReaderFor(c, yes), r) <==> FileConverts(c, r)
    requires request in requests && FileConverts(c, request) && !Converts(ReaderFor(c, no), request)
    requires forall x :: c.toInt(x).Some? ==> c.toFloat(x).Some?
    ensures Verdicts(c, yes, dir, file, requests) != Verdicts(c, no, dir, file, requests)
  {
    forall r | Converts(ReaderFor(c, no), r) ensures Converts(ReaderFor(c, yes), r) {
      ConvertsIff(c, no, dir, file, r);
    }
    ReaderIsRegular(c, yes);
    ReaderIsRegular(c, no);
    AcceptedConverting(ReaderFor(c, yes), SetIn(yes), dir, file, requests);
    AcceptedConverting(ReaderFor(c, no), SetIn(no), dir, file, requests);
    FewerConverting(ReaderFor(c, yes), ReaderFor(c, no), requests, request);
  }

  /** One config file under two environments that set the same variables and under which it
      loads, and then any updates whose fate the environment cannot decide, refused ones
      included: the same file is written, so nothing the environment supplied can be read
      off it. */
  lemma DumpHidesEnvironment(c: Casts, env: Env, env': Env, dir: string, file: File, requests: seq<File>)
    requires forall x :: c.toInt(x).Some? ==> c.toFloat(x).Some?
    requires Loads(ReaderFor(c, env), dir, file) && LoadsUnder(c, env.Keys, env', dir, file)
    requires forall r :: r in requests ==> Decided(c, SetIn(env), file, r)
    ensures Written(c, env, dir, file, requests) == Written(c, env', dir, file, requests)
  {
    DecidedVerdictsAgree(c, env, env, env', dir, file, requests);
    SameVerdictsSameFile(c, env, env', dir, file, requests);
  }

  // -- exactly when one update gives the environment away ---------------------------------------

  /** The request changes a setting that the environment leaves to the file. */
  ghost predicate Visible(c: Casts, set_: Setter, dir: string, file: File, request: File) {
    exists f: Field :: Changes(c, set_, dir, file, request, f)
  }

  predicate Changes(c: Casts, set_: Setter, dir: string, file: File, request: File, f: Field) {
    f in request && f.Mqtt() && !set_(f) && FromFile(c, f, request[f]) != FromFile(c, f, ValueIn(file, dir, f))
  }

  ghost predicate FilesHide(c: Casts, keys: set<string>, dir: string, file: File, request: File) {
    forall env, env' | LoadsUnder(c, keys, env, dir, file) && LoadsUnder(c, keys, env', dir, file) ::
      Written(c, env, dir, file, [request]) == Written(c, env', dir, file, [request])
  }

  lemma WrittenOne(c: Casts, env: Env, dir: string, file: File, request: File)
    requires Loads(ReaderFor(c, env), dir, file)
    ensures var read := ReaderFor(c, env);
      var s := Load(read, dir, file);
      Written(c, env, dir, file, [request]) ==
        Dump(SetIn(env), if Converts(read, request) then UpdateMqtt(read, s, request) else s)
  {
    var read := ReaderFor(c, env);
    var s := Load(read, dir, file);
    ReaderIsRegular(c, env);
    assert Front([request]) == [] && Accepted(read, s, []) == [];
    UpdatesIffConverts(read, SetIn(env), dir, file, s, request);
    if Converts(read, request) { assert Front([] + [request]) == []; }
  }

  lemma UpdatedOutside(c: Casts, env: Env, dir: string, file: File, request: File, f: Field)
    requires Loads(ReaderFor(c, env), dir, file) && !SetIn(env)(f)
    ensures var s := Load(ReaderFor(c, env), dir, file);
      && Some(s(f)) == FromFile(c, f, ValueIn(file, dir, f))
      && (Converts(ReaderFor(c, env), request) ==>
            Some(UpdateMqtt(ReaderFor(c, env), s, request)(f)) ==
              if f in request && f.Mqtt() then FromFile(c, f, request[f]) else FromFile(c, f, ValueIn(file, dir, f)))
  {
    var read := ReaderFor(c, env);
    assert read(f, ValueIn(file, dir, f)).Some?;
    ReadingIsIdempotent(c, env, f, ValueIn(file, dir, f));
    if Converts(read, request) && f in request && f.Mqtt() {
      assert read(f, request[f]).Some?;
    }
  }

  lemma InvisibleUpdate(c: Casts, env: Env, dir: string, file: File, request: File)
    requires Loads(ReaderFor(c, env), dir, file) && !Visible(c, SetIn(env), dir, file, request)
    ensures Written(c, env, dir, file, [request]) == Dump(SetIn(env), Load(ReaderFor(c, env), dir, file))
  {
    var read := ReaderFor(c, env);
    var s := Load(read, dir, file);
    WrittenOne(c, env, dir, file, request);
    if Converts(read, request) {
      forall f: Field | !SetIn(env)(f) ensures UpdateMqtt(read, s, request)(f) == s(f) {
        UpdatedOutside(c, env, dir, file, request, f);
        assert !Changes(c, SetIn(env), dir, file, request, f);
      }
    }
  }

  lemma DumpsDiffer(set_: Setter, s: Settings, set_': Setter, s': Settings, f: Field)
    requires !set_(f) && !set_'(f) && s(f) != s'(f)
    ensures Dump(set_, s) != Dump(set_', s')
  {
    var one, two := Dump(set_, s), Dump(set_', s');
    if f in one && f in two {
      assert one[f] != two[f];
    }
  }

  lemma VisibleSplit(c: Casts, yes: Env, no: Env, dir: string, file: File, request: File, f: Field)
    requires Loads(ReaderFor(c, yes), dir, file) && LoadsUnder(c, yes.Keys, no, dir, file)
    requires Converts(ReaderFor(c, yes), request) && !Converts(ReaderFor(c, no), request)
    requires Changes(c, SetIn(yes), dir, file, request, f)
    ensures Written(c, yes, dir, file, [request]) != Written(c, no, dir, file, [request])
  {
    SameVariables(c, yes, no);
    var after := UpdateMqtt(ReaderFor(c, yes), Load(ReaderFor(c, yes), dir, file), request);
    var before := Load(ReaderFor(c, no), dir, file);
    assert after(f) != before(f) by {
      UpdatedOutside(c, yes, dir, file, request, f);
      UpdatedOutside(c, no, dir, file, request, f);
    }
    WrittenOne(c, yes, dir, file, request);
    WrittenOne(c, no, dir, file, request);
    DumpsDiffer(SetIn(yes), after, SetIn(no), before, f);
  }

  /** What is written after one update hides the environment exactly when the environment cannot
      decide whether it goes through, or it changes nothing the environment leaves to the file. */
  lemma FilesHideIff(c: Casts, env: Env, dir: string, file: File, request: File,
                     number: string, decimal: string, word: string)
    requires PythonLike(c, number, decimal, word) && Loads(ReaderFor(c, env), dir, file)
    ensures FilesHide(c, env.Keys, dir, file, request) <==>
      Decided(c, SetIn(env), file, request) || !Visible(c, SetIn(env), dir, file, request)
  {
    if Decided(c, SetIn(env), file, request) || !Visible(c, SetIn(env), dir, file, request) {
      forall one, two | LoadsUnder(c, env.Keys, one, dir, file) && LoadsUnder(c, env.Keys, two, dir, file)
        ensures Written(c, one, dir, file, [request]) == Written(c, two, dir, file, [request])
      {
        HiddenFiles(c, env, one, two, dir, file, request);
      }
    } else {
      var at :| Risky(SetIn(env), file, request, at);
      var f :| Changes(c, SetIn(env), dir, file, request, f);
      var yes, no := RiskSplits(c, env, dir, file, request, at, number, decimal, word);
      SameVariables(c, env, yes);
      VisibleSplit(c, yes, no, dir, file, request, f);
    }
  }

  lemma HiddenFiles(c: Casts, env: Env, one: Env, two: Env, dir: string, file: File, request: File)
    requires forall x :: c.toInt(x).Some? ==> c.toFloat(x).Some?
    requires LoadsUnder(c, env.Keys, one, dir, file) && LoadsUnder(c, env.Keys, two, dir, file)
    requires Decided(c, SetIn(env), file, request) || !Visible(c, SetIn(env), dir, file, request)
    ensures Written(c, one, dir, file, [request]) == Written(c, two, dir, file, [request])
  {
    if Decided(c, SetIn(env), file, request) {
      DecidedVerdictsAgree(c, env, one, two, dir, file, [request]);
      SameVerdictsSameFile(c, one, two, dir, file, [request]);
    } else {
      NotVisibleUnder(c, env, one, dir, file, request);
      NotVisibleUnder(c, env, two, dir, file, request);
      InvisibleUpdate(c, one, dir, file, request);
      InvisibleUpdate(c, two, dir, file, request);
      SameVerdictsSameFile(c, one, two, dir, file, []);
    }
  }

  lemma NotVisibleUnder(c: Casts, env: Env, env': Env, dir: string, file: File, request: File)
    requires env.Keys == env'.Keys && !Visible(c, SetIn(env), dir, file, request)
    ensures !Visible(c, SetIn(env'), dir, file, request)
  {
    SameVariables(c, env, env');
    forall f: Field ensures !Changes(c, SetIn(env'), dir, file, request, f) {
      assert !Changes(c, SetIn(env), dir, file, request, f);
    }
  }

  /** An empty file, a topic from the environment, and a request for the topic 3 and another host:
      whether the host reaches the file tells whether the topic is a number. */
  lemma RefusalShows(c: Casts, number: string, decimal: string, word: string)
    requires PythonLike(c, number, decimal, word)
    ensures var yes, no := map["MQTT_TOPIC" := number], map["MQTT_TOPIC" := word];
      var request: File := map[MqttTopic := Int(3), MqttHost := Str("x")];
      && LoadsUnder(c, {"MQTT_TOPIC"}, yes, BUILT_IN_DIR, map[])
      && LoadsUnder(c, {"MQTT_TOPIC"}, no, BUILT_IN_DIR, map[])
      && Written(c, yes, BUILT_IN_DIR, map[], [request]) != Written(c, no, BUILT_IN_DIR, map[], [request])
  {
    var yes, no := map["MQTT_TOPIC" := number], map["MQTT_TOPIC" := word];
    var request: File := map[MqttTopic := Int(3), MqttHost := Str("x")];
    TopicLoads(c, number);
    TopicLoads(c, word);
    assert !ReaderFor(c, no)(MqttTopic, request[MqttTopic]).Some?;
    assert Changes(c, SetIn(yes), BUILT_IN_DIR, map[], request, MqttHost);
    VisibleSplit(c, yes, no, BUILT_IN_DIR, map[], request, MqttHost);
  }

  lemma TopicLoads(c: Casts, text: string)
    ensures LoadsUnder(c, {"MQTT_TOPIC"}, map["MQTT_TOPIC" := text], BUILT_IN_DIR, map[])
  {
    var env := map["MQTT_TOPIC" := text];
    forall f: Field ensures ReaderFor(c, env)(f, ValueIn(map[], BUILT_IN_DIR, f)).Some? {
      if f != MqttTopic { DefaultReads(c, env, f); }
    }
  }
}
